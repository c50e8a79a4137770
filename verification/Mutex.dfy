/**
Mutexes with transitive priority inheritance on one processor. Each method is one
atomic step: a call up to `rt_schedule`, a timeout, or the code after wake-up.
*/
module PriorityMutex {
  import opened Lists
  import opened MutexState
  import opened MutexSteps
  import opened MutexChains
  import opened SuspendList

  datatype TakeResult = Taken | Full | TimedOut | Blocked

  /** `t` may make a call: it is not suspended and not past `rt_schedule` in a take. */
  predicate MayCall(ts: Threads, t: nat) {
    t < |ts| && !ts[t].suspended && ts[t].call == Idle
  }

  /** What `_rt_mutex_take` of `m` by `t` does up to its return or to `rt_schedule`. */
  ghost predicate TakeEffect(ts: Threads, ms: Mutexes, t: nat, m: nat, timeout: int, r: TakeResult,
                             ts': Threads, ms': Mutexes)
    requires t < |ts| && m < |ms|
  {
    if ms[m].owner == Some(t) then
      && ts' == ts[t := ts[t].(error := EOK)]
      && if ms[m].hold < HOLD_MAX
         then r == Taken && ms' == ms[m := ms[m].(hold := ms[m].hold + 1)]
         else r == Full && ms' == ms
    else if ms[m].owner == None then
      r == Taken && ts' == AcquiredThreads(ts, t, m) && ms' == AcquiredMutexes(ms, t, m)
    else if timeout == 0 then
      r == TimedOut && ms' == ms && ts' == ts[t := ts[t].(error := ETIMEOUT)]
    else
      r == Blocked && BlockEffect(ts, ms, t, m, timeout > 0, ts', ms')
  }

  /** What `rt_mutex_release` of `m` by `t` does. */
  ghost predicate UnlockEffect(ts: Threads, ms: Mutexes, t: nat, m: nat, ok: bool, ts': Threads, ms': Mutexes)
    requires t < |ts| && m < |ms|
  {
    && ok == (ms[m].owner == Some(t))
    && (!ok ==> ms' == ms && ts' == ts[t := ts[t].(error := ERROR)])
    && (ok && ms[m].hold > 1 ==> ts' == ts && ms' == ms[m := ms[m].(hold := ms[m].hold - 1)])
    && (ok && ms[m].hold == 1 ==> ReleaseEffect(ts, ms, t, m, ts', ms'))
  }

  ghost predicate TimeoutEffect(ts: Threads, ms: Mutexes, t: nat, ts': Threads, ms': Mutexes)
    requires t < |ts|
  {
    && ts[t].call.InTake? && ts[t].call.mutex < |ms| && ts' == Expired(ts, t)
    && ms' == Dropped(ms, ts[t].call.mutex, Remove(ms[ts[t].call.mutex].waiters, t))
  }

  /** What the rest of a take does: `t` owns the mutex, or cleans up after its timeout. */
  ghost predicate ResumeEffect(ts: Threads, ms: Mutexes, t: nat, ok: bool, ts': Threads, ms': Mutexes)
    requires t < |ts|
  {
    && ts[t].call.InTake? && ts[t].call.mutex < |ms|
    && ok == (ts[t].error == EOK) && ok == (ms[ts[t].call.mutex].owner == Some(t))
    && (ok ==> ms' == ms && ts' == Returned(ts, t))
    && (!ok ==> SameShape(Returned(ts, t), ms, ts', ms') && ReturnEffect(ts, ms, t, ts[t].call.mutex, ts', ms'))
  }

  datatype State = State(ts: Threads, ms: Mutexes)

  class MutexSystem {
    var threads: Threads
    var mutexes: Mutexes

    ghost function View(): State
      reads this
    {
      State(threads, mutexes)
    }

    ghost predicate Valid()
      reads this
    {
      Inv(threads, mutexes)
    }

    /** `rt_thread_init` and `rt_mutex_init` for every object of the system. */
    constructor (priorities: seq<nat>, mutexCount: nat)
      requires forall i :: 0 <= i < |priorities| ==> priorities[i] <= NO_PRIORITY
      ensures Valid() && Exact(threads, mutexes)
      ensures |threads| == |priorities| && |mutexes| == mutexCount
      ensures forall t :: 0 <= t < |threads| ==>
        threads[t] == Thread(priorities[t], priorities[t], false, None, [], EOK, false, Idle)
      ensures forall m :: 0 <= m < |mutexes| ==> mutexes[m] == Mutex(None, 0, NO_PRIORITY, [])
    {
      threads := seq(|priorities|, i requires 0 <= i < |priorities| =>
        Thread(priorities[i], priorities[i], false, None, [], EOK, false, Idle));
      mutexes := seq(mutexCount, _ => Mutex(None, 0, NO_PRIORITY, []));
    }

    // ---- helpers of ipc.c --------------------------------------------------------

    /** `_thread_get_mutex_priority` */
    method GetMutexPriority(t: nat) returns (p: nat)
      requires t < |threads|
      requires forall m :: m in threads[t].taken ==> m < |mutexes|
      ensures p <= threads[t].init
      ensures forall m :: m in threads[t].taken ==> p <= mutexes[m].priority
      ensures p == threads[t].init || exists m :: m in threads[t].taken && p == mutexes[m].priority
      ensures Struct(threads, mutexes) ==> Covers(threads, mutexes, t, p) && Attained(threads, mutexes, t, p)
    {
      var taken := threads[t].taken;
      p := threads[t].init;
      for i := 0 to |taken|
        invariant p <= threads[t].init
        invariant forall k :: 0 <= k < i ==> taken[k] in taken && p <= mutexes[taken[k]].priority
        invariant p == threads[t].init || exists m :: m in taken && p == mutexes[m].priority
      {
        assert taken[i] in taken;
        if p > mutexes[taken[i]].priority {
          p := mutexes[taken[i]].priority;
        }
      }
      if Struct(threads, mutexes) {
        assert ThreadOk(threads, mutexes, t);
        if p != threads[t].init {
          ghost var m :| m in taken && p == mutexes[m].priority;
          assert Donates(mutexes, m, t, p);
        }
      }
    }

    /** The position `rt_susp_list_enqueue` finds with RT_IPC_FLAG_PRIO: behind equals. */
    method FindPosition(waiters: seq<nat>, p: nat) returns (n: nat)
      requires forall i :: 0 <= i < |waiters| ==> waiters[i] < |threads|
      ensures n <= |waiters|
      ensures forall i :: 0 <= i < n ==> threads[waiters[i]].cur <= p
      ensures n < |waiters| ==> p < threads[waiters[n]].cur
    {
      n := FindPlace(waiters, Priorities(threads), p);
    }

    /** Re-inserts a waiter after its priority changed and refreshes the mutex's cache. */
    method Requeue(t: nat, m: nat)
      requires t < |threads| && m < |mutexes| && t in mutexes[m].waiters
      requires Distinct(mutexes[m].waiters)
      requires forall w :: w in mutexes[m].waiters ==> w < |threads|
      requires QueueOkBut(threads, mutexes[m], t)
      modifies this`mutexes
      ensures |mutexes| == |old(mutexes)|
      ensures mutexes == old(mutexes)[m := mutexes[m]]
      ensures mutexes[m] == old(mutexes[m]).(priority := mutexes[m].priority, waiters := mutexes[m].waiters)
      ensures SameWaiters(old(mutexes[m].waiters), mutexes[m].waiters)
      ensures QueueOk(threads, mutexes[m]) && CacheExact(threads, mutexes[m])
      ensures mutexes[m].priority <= threads[t].cur
      ensures mutexes[m].priority >= old(mutexes[m].priority) || mutexes[m].priority == threads[t].cur
    {
      var before := mutexes[m].waiters;
      var w := Remove(before, t);
      RemovedBelow(threads, before, w, t);
      var n := FindPosition(w, threads[t].cur);
      MovedWaiterSorts(threads, before, w, t, n);
      var w' := InsertAt(w, n, t);
      HeadAfterMove(threads, mutexes[m], w', t);
      mutexes := mutexes[m := mutexes[m].(waiters := w', priority := threads[w'[0]].cur)];
    }

    /**
    `_thread_update_priority`: sets the priority of `t` and walks up the owner chain as
    long as something changes. It ends on every wait-for graph, cycles included: going
    down, the sum of all priorities falls; once an update goes up it never goes down again.
    */
    method UpdatePriority(t: nat, p: nat)
      requires t < |threads| && Struct(threads, mutexes) && QueuesOk(threads, mutexes)
      requires CoveredBut(threads, mutexes, t) && threads[t].cur <= threads[t].init
      requires Covers(threads, mutexes, t, p)
      modifies this
      ensures SameShape(old(threads), old(mutexes), threads, mutexes)
      ensures Inv(threads, mutexes)
      ensures old(ExactFor(threads, mutexes, t, p)) ==> Exact(threads, mutexes)
      ensures !old(threads[t].suspended) ==>
        mutexes == old(mutexes) && threads == old(threads[t := threads[t].(cur := p)])
    {
      PriorityChanged(threads, mutexes, t, p, ExactFor(threads, mutexes, t, p));
      ghost var up, exact := p >= threads[t].cur, ExactFor(threads, mutexes, t, p);
      ghost var ts, ms := threads, mutexes;
      threads := threads[t := threads[t].(cur := p)];
      if threads[t].suspended {
        ghost var ts' := threads;
        Walk(t, up, exact);
        SameShapeTrans(ts, ms, ts', ms, threads, mutexes);
      }
    }

    /** The loop of `_thread_update_priority`. */
    method Walk(t: nat, ghost goingUp: bool, ghost exact: bool)
      requires t < |threads| && Struct(threads, mutexes)
      requires Walking(threads, mutexes, t, threads[t].suspended, goingUp, exact)
      modifies this
      ensures SameShape(old(threads), old(mutexes), threads, mutexes)
      ensures Inv(threads, mutexes) && (exact ==> Exact(threads, mutexes))
    {
      ghost var up := goingUp;
      var thread: nat := t;
      var ret := true;
      SameShapeRefl(threads, mutexes);
      while ret && threads[thread].suspended
        invariant thread < |threads| && Struct(threads, mutexes)
        invariant SameShape(old(threads), old(mutexes), threads, mutexes)
        invariant Walking(threads, mutexes, thread, ret && threads[thread].suspended, up, exact)
        decreases if up then 0 else 1, if up then SlackSum(threads) else CurSum(threads), ret
      {
        match threads[thread].pending {
          case None => ret := false;
          case Some(m) =>
            ghost var was, was' := threads, mutexes;
            thread, ret, up := PassOn(thread, m, up, exact);
            SameShapeTrans(old(threads), old(mutexes), was, was', threads, mutexes);
        }
      }
    }

    /** One round of the loop in `_thread_update_priority`, from a waiter to the owner. */
    method PassOn(thread: nat, m: nat, ghost up: bool, ghost exact: bool)
      returns (next: nat, ret: bool, ghost up': bool)
      requires thread < |threads| && Struct(threads, mutexes)
      requires threads[thread].suspended && threads[thread].pending == Some(m)
      requires Walking(threads, mutexes, thread, true, up, exact)
      modifies this
      ensures SameShape(old(threads), old(mutexes), threads, mutexes) && Struct(threads, mutexes)
      ensures next < |threads|
      ensures Walking(threads, mutexes, next, ret && threads[next].suspended, up', exact)
      ensures !ret ==> threads == old(threads) && up' == up
      ensures ret && up ==> up'
      ensures ret ==> if up' then SlackSum(threads) < SlackSum(old(threads)) else CurSum(threads) < CurSum(old(threads))
    {
      ghost var ts := threads;
      var owner, priority := RequeueAndAsk(thread, m, up, exact);
      next, ret, up' := thread, false, up;
      if priority != threads[owner].cur {
        PriorityChanged(threads, mutexes, owner, priority, exact);
        SumsAfterChange(threads, owner, priority);
        ghost var ms' := mutexes;
        up' := priority > threads[owner].cur;
        next, ret := owner, true;
        threads := threads[owner := threads[owner].(cur := priority)];
        SameShapeTrans(ts, old(mutexes), ts, ms', threads, mutexes);
      }
    }

    method RequeueAndAsk(thread: nat, m: nat, ghost up: bool, ghost exact: bool) returns (owner: nat, priority: nat)
      requires thread < |threads| && Struct(threads, mutexes)
      requires threads[thread].suspended && threads[thread].pending == Some(m)
      requires Walking(threads, mutexes, thread, true, up, exact)
      modifies this`mutexes
      ensures SameShape(threads, old(mutexes), threads, mutexes)
      ensures Due(threads, mutexes, owner, priority) && Attained(threads, mutexes, owner, priority)
      ensures exact ==> ExactFor(threads, mutexes, owner, priority)
      ensures up ==> threads[owner].cur <= priority
      ensures threads[owner].cur == priority ==> Walking(threads, mutexes, thread, false, up, exact)
    {
      hide Struct, Walking, SortedBut, QueueOk, QueueOkBut, CacheExact, Attained, Covers, SameShape, SameWaiters;
      ghost var ms := mutexes;
      WaiterToMove(threads, mutexes, thread, m, up, exact);
      Requeue(thread, m);
      Requeued(threads, ms, mutexes, thread, m, up, exact);
      owner := mutexes[m].owner.value;
      OwnerToAsk(threads, mutexes, owner);
      priority := GetMutexPriority(owner);
      OwnerUrgency(threads, ms, thread, owner, up, exact);
      AskedPriority(threads, mutexes, thread, owner, priority, up, exact);
    }

    // ---- the steps -----------------------------------------------------------------

    /** `_rt_mutex_take` up to its return or to `rt_schedule`. */
    method Take(t: nat, m: nat, timeout: int) returns (r: TakeResult)
      requires Valid() && MayCall(threads, t) && m < |mutexes|
      modifies this
      ensures Valid() && (old(Exact(threads, mutexes)) ==> Exact(threads, mutexes))
      ensures TakeEffect(old(threads), old(mutexes), t, m, timeout, r, threads, mutexes)
    {
      hide Inv, Exact, SameShape, OneDonation;
      var mu := mutexes[m];
      if mu.owner == Some(t) {
        threads := threads[t := threads[t].(error := EOK)];
        if mu.hold < HOLD_MAX {
          mutexes := mutexes[m := mu.(hold := mu.hold + 1)];
          r := Taken;
        } else {
          r := Full;
        }
        RecordedInv(old(threads), old(mutexes), threads, mutexes);
      } else if mu.owner == None {
        AcquiredInv(threads, mutexes, t, m);
        mutexes := mutexes[m := mu.(owner := Some(t), priority := NO_PRIORITY, hold := 1)];
        threads := threads[t := threads[t].(taken := [m] + threads[t].taken, error := EOK)];
        r := Taken;
      } else if timeout == 0 {
        threads := threads[t := threads[t].(error := ETIMEOUT)];
        RecordedInv(old(threads), old(mutexes), threads, mutexes);
        r := TimedOut;
      } else {
        Block(t, m, timeout > 0);
        r := Blocked;
      }
    }

    /** The part of `_rt_mutex_take` that suspends the caller. */
    method Block(t: nat, m: nat, timed: bool)
      requires Valid() && MayCall(threads, t) && m < |mutexes| && mutexes[m].owner.Some? && mutexes[m].owner != Some(t)
      modifies this
      ensures Valid() && (old(Exact(threads, mutexes)) ==> Exact(threads, mutexes))
      ensures BlockEffect(old(threads), old(mutexes), t, m, timed, threads, mutexes)
    {
      hide Inv, Exact, ExactFor, Struct, QueuesOk, CoveredBut, Covers, SameShape;
      ghost var ts, ms := threads, mutexes;
      var mu := mutexes[m];
      var priority := threads[t].cur;
      WaitersBelow(ts, ms, m);
      var n := FindPosition(mu.waiters, priority);
      BlockedOutcome(ts, ms, t, m, n, timed);
      BlockedShape(ts, ms, t, m, n, timed);

      threads := threads[t := threads[t].(suspended := true, pending := Some(m), call := InTake(m), error := EOK,
                                          timer := timed)];
      mutexes := mutexes[m := mu.(waiters := InsertAt(mu.waiters, n, t))];
      if priority < mu.priority {
        mutexes := mutexes[m := mutexes[m].(priority := priority)];
        assert mutexes == Queued(ts, ms, t, m, n);
        var owner := mu.owner.value;
        if priority < threads[owner].cur {
          ghost var ts', ms' := threads, mutexes;
          UpdatePriority(owner, priority);
          SameShapeTrans(Suspended(ts, t, m, timed), ms[m := ms[m].(waiters := ms[m].waiters + [t])], ts', ms', threads,
                         mutexes);
        }
      } else {
        assert mutexes == Queued(ts, ms, t, m, n);
      }
    }

    /** `rt_mutex_release`; `ok` is false when the caller does not own the mutex. */
    method Release(t: nat, m: nat) returns (ok: bool)
      requires Valid() && MayCall(threads, t) && m < |mutexes|
      modifies this
      ensures Valid() && (old(Exact(threads, mutexes)) ==> Exact(threads, mutexes))
      ensures UnlockEffect(old(threads), old(mutexes), t, m, ok, threads, mutexes)
    {
      ok := mutexes[m].owner == Some(t);
      if !ok {
        threads := threads[t := threads[t].(error := ERROR)];
        RecordedInv(old(threads), old(mutexes), threads, mutexes);
      } else if mutexes[m].hold > 1 {
        mutexes := mutexes[m := mutexes[m].(hold := mutexes[m].hold - 1)];
        RecordedInv(old(threads), old(mutexes), threads, mutexes);
      } else {
        LastRelease(t, m);
      }
    }

    /** The part of `rt_mutex_release` that gives the mutex up. */
    method LastRelease(t: nat, m: nat)
      requires Valid() && MayCall(threads, t) && m < |mutexes| && mutexes[m].owner == Some(t)
      modifies this
      ensures Valid() && (old(Exact(threads, mutexes)) ==> Exact(threads, mutexes))
      ensures ReleaseEffect(old(threads), old(mutexes), t, m, threads, mutexes)
    {
      ghost var ts, ms := threads, mutexes;
      var rest := Remove(threads[t].taken, m);
      ReleasedRest(ts, ms, t, m, rest);
      threads := threads[t := threads[t].(taken := rest)];
      CheckAndUpdatePriority(t, m, ts);
      ReleasedHead(ts, ms, t, m);
      ReleasedEffect(ts, ms, t, m, rest, threads[t].cur);
      HandedOverSame(ts, ms, t, m, rest, threads[t].cur);
      HandOver(m);
    }

    /** `_check_and_update_prio` without a ceiling: `t` has just taken `m` off its list. */
    method CheckAndUpdatePriority(t: nat, m: nat, ghost ts: Threads)
      requires t < |threads| == |ts| && m < |mutexes| && Struct(ts, mutexes)
      requires threads == ts[t := ts[t].(taken := threads[t].taken)] && Without(ts[t].taken, m, threads[t].taken)
      requires forall k :: k in threads[t].taken ==> k < |mutexes|
      modifies this`threads
      ensures |threads| == |ts| && threads == Relieved(ts, t, old(threads[t].taken), threads[t].cur)
      ensures RightPriority(ts, mutexes, t, m, threads[t].cur)
    {
      if threads[t].cur == mutexes[m].priority {
        var priority := GetMutexPriority(t);
        RestPriority(ts, mutexes, t, m, threads[t].taken, priority);
        threads := threads[t := threads[t].(cur := priority)];
      }
    }

    /** Wakes the first waiter and makes it the owner, or frees the mutex. */
    method HandOver(m: nat)
      requires m < |mutexes| && forall w :: w in mutexes[m].waiters ==> w < |threads|
      requires mutexes[m].waiters != [] ==> mutexes[m].waiters[0] < |threads|
      modifies this
      ensures threads == Granted(old(threads), old(mutexes), m)
      ensures mutexes == HandedOver(old(threads), old(mutexes), m)
    {
      var w := mutexes[m].waiters;
      if w != [] {
        var next := w[0];
        // rt_sched_thread_ready stops the timer and makes the thread ready
        threads := threads[next := threads[next].(suspended := false, timer := false)];
        mutexes := mutexes[m := mutexes[m].(waiters := w[1..], owner := Some(next), hold := 1)];
        threads := threads[next := threads[next].(taken := [m] + threads[next].taken, pending := None)];
        assert |w| > 1 ==> w[1] in w;
        var priority := if |w| > 1 then threads[w[1]].cur else NO_PRIORITY;
        mutexes := mutexes[m := mutexes[m].(priority := priority)];
      } else {
        mutexes := mutexes[m := mutexes[m].(owner := None, hold := 0, priority := NO_PRIORITY)];
      }
    }

    /** `_thread_timeout` for a thread waiting in a take. */
    method Timeout(t: nat)
      requires Valid() && t < |threads| && threads[t].timer
      modifies this
      ensures Valid()
      ensures TimeoutEffect(old(threads), old(mutexes), t, threads, mutexes)
    {
      assert ThreadOk(threads, mutexes, t);
      var m := threads[t].call.mutex;
      var rest := Remove(mutexes[m].waiters, t);
      ExpiredWithout(threads, mutexes, t, m);
      ExpiredInv(threads, mutexes, t, m, rest);
      threads := threads[t := threads[t].(suspended := false, timer := false, error := ETIMEOUT)];
      mutexes := mutexes[m := mutexes[m].(waiters := rest)];
    }

    /** The code of `_rt_mutex_take` behind `rt_schedule`; `ok` is false after a timeout. The
        two assertions of the source hold: a thread woken without error owns the mutex, and
        one that timed out does not. */
    method Return(t: nat) returns (ok: bool)
      requires Valid() && t < |threads| && !threads[t].suspended && threads[t].call.InTake?
      modifies this
      ensures Valid() && (old(Exact(threads, mutexes)) ==> Exact(threads, mutexes))
      ensures ResumeEffect(old(threads), old(mutexes), t, ok, threads, mutexes)
    {
      ghost var ts, ms := threads, mutexes;
      assert ThreadOk(threads, mutexes, t);
      var m := threads[t].call.mutex;
      ok := threads[t].error == EOK;
      if !ok {
        CleanUp(t, m);
      }
      ReturnedInv(threads, mutexes, t);
      threads := threads[t := threads[t].(pending := None, call := Idle)];
    }

    /** The clean-up of a timed-out take. It re-reads the cached priority of the mutex, but
        passes the loss on only if the owner's priority equals that of the caller. */
    method CleanUp(t: nat, m: nat)
      requires Valid() && t < |threads| && m < |mutexes| && !threads[t].suspended
      modifies this
      ensures Inv(threads, mutexes) && SameShape(old(threads), old(mutexes), threads, mutexes)
      ensures CleanUpEffect(old(threads), old(mutexes), t, m, threads, mutexes)
    {
      hide Inv, SameShape, CacheExact, Attained, StillDue;
      ghost var ts, ms := threads, mutexes;
      WaitersBelow(ts, ms, m);
      var owner := mutexes[m].owner;
      var needUpdate := owner.Some? && threads[owner.value].cur == threads[t].cur;
      RefreshedInv(ts, ms, m);
      RefreshedExact(ts, ms, m);
      if ExactBut(ts, ms, m) {
        RefreshedCaches(ts, ms, m);
      }
      var w := mutexes[m].waiters;
      mutexes := mutexes[m := mutexes[m].(priority := if w != [] then threads[w[0]].cur else NO_PRIORITY)];
      if needUpdate {
        Recompute(owner.value, ts, ms, m);
      }
    }

    method Recompute(owner: nat, ghost ts: Threads, ghost ms: Mutexes, ghost m: nat)
      requires Valid() && owner < |threads| && SameShape(ts, ms, threads, mutexes)
      modifies this
      ensures Inv(threads, mutexes) && SameShape(ts, ms, threads, mutexes)
      ensures old((forall k :: 0 <= k < |mutexes| ==> CacheExact(threads, mutexes[k])) &&
                  (forall u :: 0 <= u < |threads| && u != owner ==> Attained(threads, mutexes, u, threads[u].cur)))
              ==> Exact(threads, mutexes)
    {
      assert ThreadOk(threads, mutexes, owner);
      var priority := GetMutexPriority(owner);
      if priority != threads[owner].cur {
        ghost var ts', ms' := threads, mutexes;
        assert Covers(threads, mutexes, owner, threads[owner].cur);
        UpdatePriority(owner, priority);
        SameShapeTrans(ts, ms, ts', ms', threads, mutexes);
      }
    }

    /** A wait on something other than a mutex begins, or ends. */
    method SleepOrWake(t: nat)
      requires Valid() && t < |threads| && threads[t].call == Idle
      modifies this
      ensures Valid() && (old(Exact(threads, mutexes)) ==> Exact(threads, mutexes))
      ensures mutexes == old(mutexes)
      ensures threads == old(threads[t := threads[t].(suspended := !threads[t].suspended)])
    {
      threads := threads[t := threads[t].(suspended := !threads[t].suspended)];
      RecordedInv(old(threads), old(mutexes), threads, mutexes);
    }

    /** With no other step in between, a timeout and its clean-up keep the priorities exact. */
    method TimeoutAndReturn(t: nat) returns (ok: bool, ghost mid: State)
      requires Valid() && t < |threads| && threads[t].timer
      modifies this
      ensures Valid() && (old(Exact(threads, mutexes)) ==> Exact(threads, mutexes))
      ensures TimeoutEffect(old(threads), old(mutexes), t, mid.ts, mid.ms) && Inv(mid.ts, mid.ms)
      ensures |mid.ts| == |old(threads)| && ResumeEffect(mid.ts, mid.ms, t, ok, threads, mutexes)
    {
      ghost var ts, ms := threads, mutexes;
      Timeout(t);
      mid := View();
      ghost var m := ts[t].call.mutex;
      if Exact(ts, ms) {
        ExpiredWithout(ts, ms, t, m);
        PromptCleanUp(ts, ms, t, m, Remove(ms[m].waiters, t));
      }
      ok := Return(t);
    }
  }

  // ---- a stale priority ---------------------------------------------------------------

  /**
  The exact equation is lost for good if another step falls between a timeout and its
  clean-up: thread 1 waits for thread 0, times out, and is made more urgent by thread 2
  before it gets to clean up. Thread 0 then keeps the priority 10 though it holds no mutex.
  */
  method LostDemotion() returns (s: MutexSystem)
    ensures Inv(s.threads, s.mutexes) && |s.threads| == 3
    ensures s.threads[0].init == 20 && s.threads[0].taken == [] && s.threads[0].cur == 10
    ensures !Exact(s.threads, s.mutexes)
  {
    s := OvertakenDonor();
    LateReturn(s);
    var ok := s.Release(0, 0);
    assert !Attained(s.threads, s.mutexes, 0, 10);
  }

  method OvertakenDonor() returns (s: MutexSystem)
    ensures fresh(s) && s.Valid() && |s.threads| == 3 && |s.mutexes| == 2
    ensures s.threads[0] == Thread(20, 10, false, None, [0], EOK, false, Idle)
    ensures s.threads[1] == Thread(10, 5, false, Some(0), [1], ETIMEOUT, false, InTake(0))
    ensures s.mutexes[0] == Mutex(Some(0), 1, 10, [])
  {
    s := TimedOutDonor();
    var r := s.Take(2, 1, -1);
    assert s.threads[0].cur == 10 && s.threads[1].cur == 5;
  }

  method TimedOutDonor() returns (s: MutexSystem)
    ensures fresh(s) && s.Valid() && |s.threads| == 3 && |s.mutexes| == 2
    ensures s.threads[0] == Thread(20, 10, false, None, [0], EOK, false, Idle)
    ensures s.threads[1] == Thread(10, 10, false, Some(0), [1], ETIMEOUT, false, InTake(0))
    ensures s.threads[2] == Thread(5, 5, false, None, [], EOK, false, Idle)
    ensures s.mutexes[0] == Mutex(Some(0), 1, 10, []) && s.mutexes[1] == Mutex(Some(1), 1, NO_PRIORITY, [])
  {
    hide Inv, Exact;
    s := TwoOwners();
    Donate(s);
    assert Remove([1], 1) == [];
    s.Timeout(1);
  }

  method Donate(s: MutexSystem)
    requires s.Valid() && Exact(s.threads, s.mutexes) && |s.threads| == 3 && |s.mutexes| == 2
    requires s.threads[0] == Thread(20, 20, false, None, [0], EOK, false, Idle)
    requires s.threads[1] == Thread(10, 10, false, None, [1], EOK, false, Idle)
    requires s.threads[2] == Thread(5, 5, false, None, [], EOK, false, Idle)
    requires s.mutexes[0] == Mutex(Some(0), 1, NO_PRIORITY, []) && s.mutexes[1] == Mutex(Some(1), 1, NO_PRIORITY, [])
    modifies s
    ensures s.Valid() && |s.threads| == 3 && |s.mutexes| == 2
    ensures s.threads[0] == Thread(20, 10, false, None, [0], EOK, false, Idle)
    ensures s.threads[1] == Thread(10, 10, true, Some(0), [1], EOK, true, InTake(0))
    ensures s.threads[2] == Thread(5, 5, false, None, [], EOK, false, Idle)
    ensures s.mutexes[0] == Mutex(Some(0), 1, 10, [1]) && s.mutexes[1] == Mutex(Some(1), 1, NO_PRIORITY, [])
  {
    var r := s.Take(1, 0, 100);
    assert SameWaiters([] + [1], s.mutexes[0].waiters) && SameWaiters([], s.mutexes[1].waiters);
    assert s.mutexes[0].waiters == [1] by {
      assert s.mutexes[0].waiters[0] in s.mutexes[0].waiters;
    }
    assert CacheExact(s.threads, s.mutexes[0]) && CacheExact(s.threads, s.mutexes[1]);
  }

  method TwoOwners() returns (s: MutexSystem)
    ensures fresh(s) && s.Valid() && Exact(s.threads, s.mutexes) && |s.threads| == 3 && |s.mutexes| == 2
    ensures s.threads[0] == Thread(20, 20, false, None, [0], EOK, false, Idle)
    ensures s.threads[1] == Thread(10, 10, false, None, [1], EOK, false, Idle)
    ensures s.threads[2] == Thread(5, 5, false, None, [], EOK, false, Idle)
    ensures s.mutexes[0] == Mutex(Some(0), 1, NO_PRIORITY, []) && s.mutexes[1] == Mutex(Some(1), 1, NO_PRIORITY, [])
  {
    s := new MutexSystem([20, 10, 5], 2);
    var r := s.Take(0, 0, 0);
    assert s.threads[0].taken == [0] && s.threads[1].taken == [];
    r := s.Take(1, 1, 0);
    assert s.threads[1].taken == [1];
  }

  method LateReturn(s: MutexSystem)
    requires s.Valid() && |s.threads| == 3 && |s.mutexes| == 2
    requires s.threads[1].call == InTake(0) && !s.threads[1].suspended && s.threads[1].error == ETIMEOUT
    requires s.mutexes[0].owner == Some(0) && s.mutexes[0].waiters == [] && s.threads[0].cur != s.threads[1].cur
    modifies s
    ensures s.Valid() && |s.threads| == 3 && s.threads[0] == old(s.threads[0])
    ensures s.mutexes == old(s.mutexes[0 := s.mutexes[0].(priority := NO_PRIORITY)])
  {
    var ok := s.Return(1);
  }
}
