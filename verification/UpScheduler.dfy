/**
The scheduler of a single core: the running thread, the ready queues with their bitmap, and
the operations that move threads between them.
*/
module UpScheduler {
  import opened Ledger
  import opened Lists
  import opened ReadyQueue

  datatype Error = EOK | EINVAL | ERROR

  datatype Stat = Init | Ready | Running | Suspended

  datatype Thread = Thread(
    prio: nat,         // current_priority
    masks: Masks,
    stat: Stat,
    yielded: bool)     // RT_THREAD_STAT_YIELD

  datatype State = State(q: Queues, threads: seq<Thread>, current: nat)

  /** The thread with another priority; if it is ready it is listed anew and has not yielded. */
  function WithPriority(max: nat, th: Thread, p: nat): (r: Thread)
    ensures r.prio == p && r.stat == th.stat && r.masks == MasksOf(max, p)
  {
    th.(prio := p, masks := MasksOf(max, p), yielded := th.yielded && th.stat != Ready)
  }

  function Home(th: Thread): Option<nat> {
    if th.stat == Ready then Some(th.prio) else None
  }

  ghost function Homes(ts: seq<Thread>): seq<Option<nat>> {
    seq(|ts|, t requires 0 <= t < |ts| => Home(ts[t]))
  }

  ghost predicate ThreadOk(max: nat, th: Thread, isCurrent: bool) {
    && th.prio < max && (th.stat != Init ==> th.masks == MasksOf(max, th.prio))
    && (th.stat == Running ==> isCurrent) && (isCurrent ==> th.stat == Running || th.stat == Suspended)
  }

  ghost predicate ThreadsOk(max: nat, ts: seq<Thread>, current: nat) {
    current < |ts| && forall t :: 0 <= t < |ts| ==> ThreadOk(max, ts[t], t == current)
  }

  /** Every ready thread is in the list of its priority and nowhere else, nobody else is in a
      list, the bitmap marks the lists in use, and only the current thread runs. */
  ghost predicate Ok(max: nat, s: State) {
    QueuesOk(max, s.q) && Listed(s.q.lists, Homes(s.threads)) && ThreadsOk(max, s.threads, s.current)
  }

  /** No ready thread is more urgent than the current one. */
  ghost predicate MostUrgent(ts: seq<Thread>, current: nat)
    requires current < |ts|
  {
    forall u :: 0 <= u < |ts| && ts[u].stat == Ready ==> ts[current].prio <= ts[u].prio
  }

  // ---- operations on values -----------------------------------------------------------------------

  ghost predicate CanList(max: nat, q: Queues, th: Thread) {
    |q.table| == GROUPS && th.masks.number < GROUPS && th.prio < |q.lists|
  }

  /** `rt_sched_insert_thread` */
  function Inserted(max: nat, s: State, t: nat): State
    requires t < |s.threads| && CanList(max, s.q, s.threads[t])
  {
    var th := s.threads[t];
    if t == s.current then s.(threads := s.threads[t := th.(stat := Running)])
    else State(Enqueue(max, s.q, th.prio, th.masks, t, th.yielded), s.threads[t := th.(stat := Ready)], s.current)
  }

  /** The current thread runs on and no list changes; any other thread is ready in the list of its
      priority, at the end exactly if it yielded, and taking it out again undoes the insertion. */
  lemma InsertedOk(max: nat, s: State, t: nat)
    requires Ok(max, s) && t < |s.threads| && s.threads[t].stat != Ready
    requires s.threads[t].masks == MasksOf(max, s.threads[t].prio)
    ensures CanList(max, s.q, s.threads[t]) && Ok(max, Inserted(max, s, t))
    ensures var r, th := Inserted(max, s, t), s.threads[t];
      if t == s.current then r == s.(threads := s.threads[t := th.(stat := Running)])
      else
        && r.threads == s.threads[t := th.(stat := Ready)] && r.current == s.current
        && |r.q.lists| == |s.q.lists| && (forall p :: 0 <= p < |s.q.lists| && p != th.prio ==>
                                          r.q.lists[p] == s.q.lists[p])
        && r.q.lists[th.prio] == (if th.yielded then s.q.lists[th.prio] + [t] else [t] + s.q.lists[th.prio])
        && Remove(r.q.lists[th.prio], t) == s.q.lists[th.prio]
  {
    hide QueuesOk;
    hide Listed;
    hide Enqueue;
    hide Remove;
    var th := s.threads[t];
    QueueBounds(max, s.q, th.prio);
    var r := Inserted(max, s, t);
    if t == s.current {
      assert Homes(r.threads) == Homes(s.threads);
    } else {
      EnqueueKeeps(max, s.q, Homes(s.threads), th.prio, t, th.yielded);
      assert Homes(r.threads) == Homes(s.threads)[t := Some(th.prio)];
      UndoEnqueue(s.q.lists, Homes(s.threads), th.prio, t);
    }
  }

  /** `rt_sched_remove_thread` */
  function Removed(max: nat, s: State, t: nat): State
    requires t < |s.threads| && CanList(max, s.q, s.threads[t])
  {
    var th := s.threads[t];
    s.(q := Dequeue(max, s.q, th.prio, th.masks, t))
  }

  /** Taking `t` out of the lists and giving it a status outside them. */
  lemma RemovedOk(max: nat, s: State, t: nat, th: Thread)
    requires Ok(max, s) && t < |s.threads| && s.threads[t].stat != Init
    requires th.stat != Ready && ThreadOk(max, th, t == s.current)
    ensures CanList(max, s.q, s.threads[t])
    ensures var r := Removed(max, s, t); Ok(max, r.(threads := s.threads[t := th]))
    ensures s.threads[t].stat != Ready ==> Removed(max, s, t).q.lists == s.q.lists
  {
    hide QueuesOk;
    hide Listed;
    hide Dequeue;
    var old' := s.threads[t];
    QueueBounds(max, s.q, old'.prio);
    DequeueKeeps(max, s.q, Homes(s.threads), old'.prio, t);
    assert Homes(s.threads[t := th]) == Homes(s.threads)[t := None];
  }

  /** The most urgent ready thread, found through the bitmap. */
  lemma Picked(max: nat, s: State) returns (p: nat, t: nat)
    requires Ok(max, s) && s.q.group != 0
    ensures CanPick(max, s.q) && p == Highest(max, s.q) && p < |s.q.lists| && s.q.lists[p] != [] && t == s.q.lists[p][0]
    ensures t < |s.threads| && t != s.current && s.threads[t].stat == Ready && s.threads[t].prio == p
    ensures forall u :: 0 <= u < |s.threads| && s.threads[u].stat == Ready ==> p <= s.threads[u].prio
  {
    hide Highest;
    hide CanPick;
    hide Listed;
    HighestThread(max, s.q, Homes(s.threads));
    p := Highest(max, s.q);
    t := s.q.lists[p][0];
    assert Home(s.threads[t]) == Some(p);
    forall u | 0 <= u < |s.threads| && s.threads[u].stat == Ready ensures p <= s.threads[u].prio {
      assert Homes(s.threads)[u] == Some(s.threads[u].prio);
    }
  }

  /** The switch of `rt_schedule` from the current thread to `to`. */
  function Switched(max: nat, s: State, to: nat, insert: bool): State
    requires s.current < |s.threads| && to < |s.threads| && s.current != to
    requires CanList(max, s.q, s.threads[s.current]) && CanList(max, s.q, s.threads[to])
  {
    var a := s.(current := to);
    var b := if insert then Inserted(max, a, s.current) else a;
    var c := b.(threads := b.threads[s.current := b.threads[s.current].(yielded := false)]);
    State(Dequeue(max, c.q, c.threads[to].prio, c.threads[to].masks, to),
          c.threads[to := c.threads[to].(stat := Running)], to)
  }

  /** What an unlocked `rt_schedule` does: the current thread runs on if no ready thread displaces
      it; otherwise the first thread of the most urgent list takes over. */
  ghost predicate Rescheduled(max: nat, s: State, s': State) {
    && s.current < |s.threads| && s'.current < |s'.threads| == |s.threads| && MostUrgent(s'.threads, s'.current)
    && if s'.current == s.current then
         && s'.threads == s.threads && s'.q.lists == s.q.lists
         && forall u :: 0 <= u < |s.threads| && s.threads[u].stat == Ready ==>
              Stays(s.threads[s.current], s.threads[u].prio)
       else
         var th := s.threads[s'.current];
         && th.stat == Ready && th.prio < |s.q.lists| && s.q.lists[th.prio] != []
         && s'.current == s.q.lists[th.prio][0] && !Stays(s.threads[s.current], th.prio)
         && CanList(max, s.q, s.threads[s.current]) && CanList(max, s.q, th)
         && s' == Switched(max, s, s'.current, s.threads[s.current].stat == Running)
  }

  lemma SwitchedOk(max: nat, s: State, to: nat, insert: bool)
    requires Ok(max, s) && to < |s.threads| && s.threads[to].stat == Ready
    requires insert <==> s.threads[s.current].stat == Running
    ensures s.current != to && CanList(max, s.q, s.threads[s.current]) && CanList(max, s.q, s.threads[to])
    ensures var r := Switched(max, s, to, insert);
      && Ok(max, r) && r.current == to && |r.threads| == |s.threads| && r.threads[to] == s.threads[to].(stat := Running)
      && r.threads[s.current] == s.threads[s.current].(yielded := false, stat := if insert then Ready else Suspended)
      && forall u :: 0 <= u < |s.threads| && u != to && u != s.current ==> r.threads[u] == s.threads[u]
  {
    hide QueuesOk;
    hide Listed;
    hide Enqueue;
    hide Dequeue;
    var from, th := s.current, s.threads[s.current];
    QueueBounds(max, s.q, th.prio);
    QueueBounds(max, s.q, s.threads[to].prio);
    var home := Homes(s.threads);
    var q1, home1 := s.q, home;
    if insert {
      EnqueueKeeps(max, s.q, home, th.prio, from, th.yielded);
      q1, home1 := Enqueue(max, s.q, th.prio, th.masks, from, th.yielded), home[from := Some(th.prio)];
    }
    assert home1[to] == Some(s.threads[to].prio);
    DequeueKeeps(max, q1, home1, s.threads[to].prio, to);
    var r := Switched(max, s, to, insert);
    assert Homes(r.threads) == home1[to := None];
  }

  // ---- the scheduler ------------------------------------------------------------------------------

  /** Whether `rt_schedule` lets the current thread go on although threads of priority `p` are ready. */
  predicate Stays(th: Thread, p: nat) {
    th.stat == Running && (th.prio < p || (th.prio == p && !th.yielded))
  }

  lemma SwitchUrgent(max: nat, s: State, p: nat, to: nat, r: State)
    requires Ok(max, s) && to < |s.threads| && s.threads[to].stat == Ready && s.threads[to].prio == p && s.current != to
    requires forall u :: 0 <= u < |s.threads| && s.threads[u].stat == Ready ==> p <= s.threads[u].prio
    requires !Stays(s.threads[s.current], p)
    requires |r.threads| == |s.threads| && r.current == to && r.threads[to] == s.threads[to].(stat := Running)
    requires r.threads[s.current].prio == s.threads[s.current].prio
    requires r.threads[s.current].stat == if s.threads[s.current].stat == Running then Ready else Suspended
    requires forall u :: 0 <= u < |s.threads| && u != to && u != s.current ==> r.threads[u] == s.threads[u]
    ensures MostUrgent(r.threads, r.current)
  {
    forall u | 0 <= u < |r.threads| && r.threads[u].stat == Ready ensures p <= r.threads[u].prio {
      if u != to && u != s.current {
        assert r.threads[u] == s.threads[u];
      }
    }
  }

  class Scheduler {
    const max: nat             // RT_THREAD_PRIORITY_MAX
    var q: Queues
    var threads: seq<Thread>
    var current: nat           // rt_current_thread
    var lockNest: nat          // rt_scheduler_lock_nest

    ghost predicate Valid()
      reads this
    {
      Ok(max, View())
    }

    ghost function View(): State
      reads this
    {
      State(q, threads, current)
    }

    /** A system with one running thread, such as the idle thread, and others not started yet. */
    constructor (max: nat, prios: seq<nat>)
      requires 0 < max <= 256 && prios != [] && forall t :: 0 <= t < |prios| ==> prios[t] < max
      ensures Valid() && this.max == max && current == 0 && lockNest == 0 && |threads| == |prios|
      ensures forall t :: 0 <= t < |prios| ==> threads[t].prio == prios[t]
      ensures forall t :: 0 <= t < |prios| ==> threads[t].stat == if t == 0 then Running else Init
    {
      this.max := max;
      q := Queues(seq(max, _ => []), 0, seq(GROUPS, _ => 0));
      threads := seq(|prios|, t requires 0 <= t < |prios| =>
        if t == 0 then Thread(prios[t], MasksOf(max, prios[t]), Running, false)
        else Thread(prios[t], Masks(0, 0, 0), Init, false));
      current, lockNest := 0, 0;
      EmptyQueues(max, Queues(seq(max, _ => []), 0, seq(GROUPS, _ => 0)));
    }

    /** `rt_sched_insert_thread` */
    method InsertThread(t: nat)
      requires t < |threads| && CanList(max, q, threads[t])
      modifies this`q, this`threads
      ensures View() == Inserted(max, old(View()), t)
    {
      hide Enqueue;
      if t == current {
        threads := threads[t := threads[t].(stat := Running)];
        return;
      }
      threads := threads[t := threads[t].(stat := Ready)];
      q := Enqueue(max, q, threads[t].prio, threads[t].masks, t, threads[t].yielded);
    }

    /** `rt_sched_remove_thread` */
    method RemoveThread(t: nat)
      requires t < |threads| && CanList(max, q, threads[t])
      modifies this`q
      ensures View() == Removed(max, old(View()), t)
    {
      q := Dequeue(max, q, threads[t].prio, threads[t].masks, t);
    }

    /** `_scheduler_get_highest_priority_thread` */
    method GetHighest() returns (t: nat, p: nat)
      requires Valid() && q.group != 0
      ensures t < |threads| && t != current && threads[t].stat == Ready && threads[t].prio == p
      ensures p < |q.lists| && q.lists[p] != [] && t == q.lists[p][0]
      ensures forall u :: 0 <= u < |threads| && threads[u].stat == Ready ==> p <= threads[u].prio
    {
      hide Ok;
      hide CanPick;
      hide Highest;
      ghost var p', t' := Picked(max, View());
      p := Highest(max, q);
      t := q.lists[p][0];
    }

    ghost function Now(): Moment
      reads this
    {
      Moment(View(), lockNest)
    }

    /** `rt_schedule` */
    method Schedule()
      requires Valid()
      modifies this
      ensures Valid() && lockNest == old(lockNest) && |threads| == |old(threads)|
      ensures lockNest == 0 ==> MostUrgent(threads, current)
      ensures lockNest == 0 && (exists u :: 0 <= u < |old(threads)| && old(threads)[u].stat == Ready) ==>
        threads[current].stat == Running
      ensures if lockNest == 0 then Rescheduled(max, old(View()), View()) else View() == old(View())
    {
      hide QueuesOk, Listed, Enqueue, Switched, CanList;
      NothingReady(max, View());
      if lockNest == 0 {
        if q.group != 0 {
          var needInsert := false;
          var to, p := GetHighest();
          if threads[current].stat == Running {
            if threads[current].prio < p {
              to := current;
            } else if threads[current].prio == p && !threads[current].yielded {
              to := current;
            } else {
              needInsert := true;
            }
          }
          if to != current {
            SwitchTo(to, p, needInsert);
          } else {
            RemovedOk(max, View(), current, threads[current]);
            RemoveThread(current);
            threads := threads[current := threads[current].(stat := Running)];
          }
        }
      }
    }

    method SwitchTo(to: nat, ghost p: nat, needInsert: bool)
      requires Valid() && to < |threads| && threads[to].stat == Ready && threads[to].prio == p
      requires forall u :: 0 <= u < |threads| && threads[u].stat == Ready ==> p <= threads[u].prio
      requires !Stays(threads[current], p) && (needInsert <==> threads[current].stat == Running)
      modifies this`q, this`threads, this`current
      ensures CanList(max, old(q), old(threads)[old(current)]) && CanList(max, old(q), old(threads)[to])
      ensures Valid() && View() == Switched(max, old(View()), to, needInsert)
      ensures |threads| == |old(threads)| && current == to && threads[to].stat == Running && threads[to].prio == p
      ensures MostUrgent(threads, current)
    {
      hide QueuesOk;
      hide Listed;
      hide Enqueue;
      hide Dequeue;
      ghost var s := View();
      SwitchedOk(max, s, to, needInsert);
      SwitchUrgent(max, s, p, to, Switched(max, s, to, needInsert));
      var from := current;
      current := to;
      if needInsert {
        InsertThread(from);
      }
      ghost var ts := threads[from := threads[from].(yielded := false)];
      if threads[from].yielded {
        threads := threads[from := threads[from].(yielded := false)];
      }
      assert threads == ts;
      RemoveThread(to);
      threads := threads[to := threads[to].(stat := Running)];
    }

    /** `rt_sched_thread_ready`, for a thread without a running timer. */
    method ReadyThread(t: nat) returns (r: Error)
      requires Valid() && t < |threads|
      modifies this`q, this`threads
      ensures Valid() && |threads| == |old(threads)| && (r == EOK <==> old(threads)[t].stat == Suspended)
      ensures r == EOK ==> CanList(max, old(q), old(threads)[t]) && View() == Inserted(max, old(View()), t)
      ensures r != EOK ==> r == EINVAL && View() == old(View())
    {
      if threads[t].stat != Suspended {
        return EINVAL;
      }
      InsertedOk(max, View(), t);
      InsertThread(t);
      return EOK;
    }

    /** `rt_sched_thread_change_priority` */
    method ChangePriority(t: nat, p: nat)
      requires Valid() && t < |threads| && p < max
      modifies this`q, this`threads
      ensures Valid() && |threads| == |old(threads)|
      ensures threads == old(threads)[t := WithPriority(max, old(threads)[t], p)]
      ensures threads[t].prio == p && threads[t].stat == old(threads)[t].stat && threads[t].masks == MasksOf(max, p)
      ensures old(threads)[t].stat != Ready ==> q == old(q)
      ensures old(threads)[t].stat == Ready ==>
        old(threads)[t].prio < |old(q.lists)| && p < |old(q.lists)|
          && q.lists == Moved(old(q.lists), old(threads)[t].prio, p, t)
    {
      hide QueuesOk, Listed, Enqueue, Dequeue, Remove, MasksOf;
      ghost var s := View();
      if threads[t].stat == Ready {
        var th := Thread(p, MasksOf(max, p), Init, false);
        RemovedOk(max, s, t, th);
        RemoveThread(t);
        threads := threads[t := threads[t].(prio := p)];
        threads := threads[t := threads[t].(masks := MasksOf(max, p))];
        threads := threads[t := threads[t].(stat := Init, yielded := false)];
        assert threads == old(threads)[t := th];
        InsertedOk(max, View(), t);
        InsertThread(t);
      } else {
        threads := threads[t := threads[t].(prio := p, masks := MasksOf(max, p))];
        assert Homes(threads) == Homes(s.threads);
      }
    }

    /** `rt_thread_suspend_to_list` by the current thread. */
    method SuspendSelf() returns (r: Error)
      requires Valid()
      modifies this`q, this`threads
      ensures Valid() && q.lists == old(q.lists)
      ensures r == if old(threads)[current].stat == Running then EOK else ERROR
      ensures threads ==
        if r == EOK then old(threads)[current := old(threads)[current].(stat := Suspended)] else old(threads)
    {
      hide QueuesOk;
      hide Listed;
      hide Dequeue;
      if threads[current].stat != Ready && threads[current].stat != Running {
        return ERROR;
      }
      RemovedOk(max, View(), current, threads[current].(stat := Suspended));
      RemoveThread(current);
      threads := threads[current := threads[current].(stat := Suspended)];
      return EOK;
    }

    /** `rt_thread_startup`: `rt_sched_thread_startup` makes the thread ready to be resumed. */
    method Startup(t: nat)
      requires Valid() && t < |threads| && threads[t].stat == Init
      modifies this`q, this`threads
      ensures Valid() && t != current && |threads| == |old(threads)| && threads[t].prio == old(threads)[t].prio
      ensures threads == old(threads)[t := old(threads)[t].(masks := MasksOf(max, threads[t].prio), stat := Ready)]
      ensures var p, last := threads[t].prio, old(threads)[t].yielded;
        && p < |old(q.lists)|
        && q.lists == old(q.lists)[p := if last then old(q.lists)[p] + [t] else [t] + old(q.lists)[p]]
    {
      hide QueuesOk;
      hide Listed;
      ghost var s := View();
      threads := threads[t := threads[t].(masks := MasksOf(max, threads[t].prio), stat := Suspended)];
      assert Homes(threads) == Homes(s.threads);
      var _ := ReadyThread(t);
    }

    /** `rt_enter_critical` */
    method EnterCritical()
      requires Valid()
      modifies this`lockNest
      ensures Valid() && lockNest == old(lockNest) + 1
    {
      lockNest := lockNest + 1;
    }

    /** `rt_exit_critical` */
    method ExitCritical()
      requires Valid()
      modifies this
      ensures Valid() && lockNest == if old(lockNest) > 0 then old(lockNest) - 1 else 0
      ensures lockNest == 0 ==> MostUrgent(threads, current)
      ensures if lockNest == 0 then Rescheduled(max, old(View()), View()) else View() == old(View())
    {
      if lockNest > 0 {
        lockNest := lockNest - 1;
      }
      if lockNest == 0 {
        Schedule();
      }
    }

    /** The threads of the running priority in the order in which they will run. */
    ghost function Ring(): seq<nat>
      requires Valid()
      reads this
    {
      RingOf(View())
    }

    /** `rt_sched_thread_yield` of the current thread. */
    method GiveWay()
      requires Valid()
      modifies this`threads
      ensures Valid() && threads == old(threads)[current := old(threads)[current].(yielded := true)]
    {
      hide QueuesOk;
      hide Listed;
      ghost var before := threads;
      threads := threads[current := threads[current].(yielded := true)];
      assert Homes(threads) == Homes(before);
    }

    /** The scheduler is unlocked and the current thread is rightly running. */
    ghost predicate Steady()
      reads this
    {
      Valid() && lockNest == 0 && threads[current].stat == Running && MostUrgent(threads, current)
    }

    /** `rt_thread_yield`: the current thread goes behind the others of its priority. */
    method Yield()
      requires Steady()
      modifies this
      ensures Steady()
      ensures old(Ring()) != [] && Ring() == old(Ring())[1..] + [old(Ring())[0]]
    {
      hide QueuesOk;
      hide Listed;
      GiveWay();
      ghost var s := View();
      assert MostUrgent(s.threads, s.current);
      Schedule();
      if current == s.current {
        RingAlone(max, View());
      } else {
        RingStep(max, s, current);
      }
    }

    /** As many yields as there are threads in the ring run each of them once, in order, and leave
        the ring as it was. */
    method YieldRound() returns (ran: seq<nat>)
      requires Steady()
      modifies this
      ensures Steady() && Ring() == old(Ring()) && ran == old(Ring())
    {
      hide Ok;
      hide RingOf;
      hide MostUrgent;
      RingShape(max, View());
      ghost var ring := Ring();
      ran := [];
      var n := 1 + |q.lists[threads[current].prio]|;
      for i := 0 to n
        invariant Steady()
        invariant |ring| == n && ran == ring[..i] && Ring() == ring[i..] + ring[..i]
      {
        RingShape(max, View());
        Rotate(ring, i);
        ran := ran + [current];
        Yield();
      }
    }
  }

  ghost function RingOf(s: State): seq<nat> {
    if s.current < |s.threads| && s.threads[s.current].prio < |s.q.lists|
    then [s.current] + s.q.lists[s.threads[s.current].prio]
    else []
  }

  lemma ListedReady(max: nat, s: State, p: nat, u: nat)
    requires Ok(max, s) && p < |s.q.lists| && u in s.q.lists[p]
    ensures u < |s.threads| && s.threads[u].stat == Ready && s.threads[u].prio == p
  {
    assert ListedAt(s.q.lists[p], Homes(s.threads), p);
    assert Homes(s.threads)[u] == Some(p);
  }

  /** A thread that yields and goes on is alone at its priority. */
  lemma RingAlone(max: nat, s: State)
    requires Ok(max, s) && s.threads[s.current].yielded
    requires forall u :: 0 <= u < |s.threads| && s.threads[u].stat == Ready ==>
      Stays(s.threads[s.current], s.threads[u].prio)
    ensures RingOf(s) == [s.current]
  {
    hide Listed;
    var p := s.threads[s.current].prio;
    assert s.q.lists[p] == [] by {
      if s.q.lists[p] != [] {
        ListedReady(max, s, p, s.q.lists[p][0]);
      }
    }
  }

  lemma RingShape(max: nat, s: State)
    requires Ok(max, s)
    ensures s.current < |s.threads| && s.threads[s.current].prio < |s.q.lists|
    ensures |RingOf(s)| == 1 + |s.q.lists[s.threads[s.current].prio]| && RingOf(s)[0] == s.current
  {
  }

  lemma RingStep(max: nat, s: State, to: nat)
    requires Ok(max, s) && to < |s.threads| && to != s.current && s.threads[s.current].stat == Running
    requires s.threads[s.current].yielded
    requires MostUrgent(s.threads, s.current) && s.threads[to].stat == Ready
    requires !Stays(s.threads[s.current], s.threads[to].prio)
    requires var p := s.threads[to].prio; p < |s.q.lists| && s.q.lists[p] != [] && to == s.q.lists[p][0]
    ensures CanList(max, s.q, s.threads[s.current]) && CanList(max, s.q, s.threads[to])
    ensures RingOf(Switched(max, s, to, true)) == RingOf(s)[1..] + [s.current]
  {
    hide QueuesOk;
    hide Listed;
    hide Enqueue;
    hide Dequeue;
    hide Remove;
    var p, from := s.threads[to].prio, s.current;
    assert s.threads[from].prio == p;
    QueueBounds(max, s.q, p);
    RotateList(s.q.lists[p], to, from);
  }

  lemma NothingReady(max: nat, s: State)
    requires Ok(max, s)
    ensures s.q.group == 0 ==> forall u :: 0 <= u < |s.threads| ==> s.threads[u].stat != Ready
  {
    hide QueuesOk;
    hide Listed;
    if u :| 0 <= u < |s.threads| && s.threads[u].stat == Ready {
      assert Homes(s.threads)[u] == Some(s.threads[u].prio);
      NobodyListed(max, s.q, Homes(s.threads), u);
    }
  }

  // ---- every run ----------------------------------------------------------------------------------

  datatype Op =
    | StartOp(t: nat) | ReadyOp(t: nat) | PriorityOp(t: nat, p: nat) | SuspendOp | YieldOp
    | EnterOp | ExitOp | ScheduleOp

  /** The scheduler and how often it is locked. */
  datatype Moment = Moment(s: State, lockNest: nat)

  datatype Result = Skipped | Done | Answer(error: Error)

  type Record = Entry<Moment, Op, Result>

  predicate Enabled(max: nat, op: Op, s: State) {
    match op
    case StartOp(t) => t < |s.threads| && s.threads[t].stat == Init
    case ReadyOp(t) => t < |s.threads|
    case PriorityOp(t, p) => t < |s.threads| && p < max
    case _ => true
  }

  /** What each operation does and answers. */
  ghost predicate Steps(max: nat, e: Record) {
    var s, s' := e.before.s, e.after.s;
    s.current < |s.threads| &&
    if !Enabled(max, e.op, s) then e.result == Skipped && e.after == e.before else
    && e.after.lockNest == (match e.op
                            case EnterOp => e.before.lockNest + 1
                            case ExitOp => if e.before.lockNest > 0 then e.before.lockNest - 1 else 0
                            case _ => e.before.lockNest)
    && match e.op
       case StartOp(t) => e.result == Done && Started(max, s, t, s')
       case ReadyOp(t) =>
         if s.threads[t].stat == Suspended
         then e.result == Answer(EOK) && CanList(max, s.q, s.threads[t]) && s' == Inserted(max, s, t)
         else e.result == Answer(EINVAL) && s' == s
       case PriorityOp(t, p) => e.result == Done && Reprioritized(max, s, t, p, s')
       case SuspendOp =>
         var th := s.threads[s.current];
         && s'.q.lists == s.q.lists && s'.current == s.current
         && if th.stat == Running
            then e.result == Answer(EOK) && s'.threads == s.threads[s.current := th.(stat := Suspended)]
            else e.result == Answer(ERROR) && s'.threads == s.threads
       case YieldOp =>
         && e.result == Done
         && s' == s.(threads := s.threads[s.current := s.threads[s.current].(yielded := true)])
       case EnterOp => e.result == Done && s' == s
       case _ => e.result == Done && if e.after.lockNest == 0 then Rescheduled(max, s, s') else s' == s
  }

  /** `t` is ready, in the list of its priority: at the end if it yielded, otherwise in front. */
  ghost predicate Started(max: nat, s: State, t: nat, s': State)
    requires t < |s.threads|
  {
    var th := s.threads[t];
    && s'.current == s.current && th.prio < |s.q.lists|
    && s'.threads == s.threads[t := th.(masks := MasksOf(max, th.prio), stat := Ready)]
    && var list := s.q.lists[th.prio];
       s'.q.lists == s.q.lists[th.prio := if th.yielded then list + [t] else [t] + list]
  }

  /** `t` has the priority `p`, and has moved to its list if it is ready. */
  ghost predicate Reprioritized(max: nat, s: State, t: nat, p: nat, s': State)
    requires t < |s.threads|
  {
    var th := s.threads[t];
    && s'.current == s.current && s'.threads == s.threads[t := WithPriority(max, th, p)]
    && if th.stat != Ready then s'.q == s.q
       else th.prio < |s.q.lists| && p < |s.q.lists| && s'.q.lists == Moved(s.q.lists, th.prio, p, t)
  }

  /** One operation; one that cannot happen does nothing. */
  method Step(s: Scheduler, op: Op) returns (result: Result)
    requires s.Valid()
    modifies s
    ensures s.Valid() && Steps(s.max, Entry(op, old(s.Now()), result, s.Now()))
    ensures op == ScheduleOp && s.lockNest == 0 ==> MostUrgent(s.threads, s.current)
  {
    hide QueuesOk, Listed, MostUrgent, Inserted, Moved, Rescheduled, MasksOf, CanList;
    result := Skipped;
    match op {
      case StartOp(t) =>
        if t < |s.threads| && s.threads[t].stat == Init {
          s.Startup(t);
          result := Done;
        }
      case ReadyOp(t) =>
        if t < |s.threads| {
          var r := s.ReadyThread(t);
          result := Answer(r);
        }
      case PriorityOp(t, p) =>
        if t < |s.threads| && p < s.max {
          s.ChangePriority(t, p);
          result := Done;
        }
      case SuspendOp =>
        var r := s.SuspendSelf();
        result := Answer(r);
      case YieldOp =>
        s.GiveWay();
        result := Done;
      case EnterOp =>
        s.EnterCritical();
        result := Done;
      case ExitOp =>
        s.ExitCritical();
        result := Done;
      case ScheduleOp =>
        s.Schedule();
        result := Done;
    }
  }

  /** Any sequence of operations is a run of `Steps` in which queues, bitmap and states agree, and a
      final `rt_schedule` with the scheduler unlocked leaves no ready thread more urgent than the
      current one. */
  method Run(s: Scheduler, ops: seq<Op>) returns (results: seq<Result>, ghost trace: seq<Record>)
    requires s.Valid()
    modifies s
    ensures s.Valid() && (s.lockNest == 0 ==> MostUrgent(s.threads, s.current))
    ensures Recorded(trace, ops + [ScheduleOp], old(s.Now()), s.Now()) && |results| == |trace|
    ensures forall i :: 0 <= i < |trace| ==> trace[i].result == results[i] && Steps(s.max, trace[i])
  {
    hide QueuesOk, Listed, MostUrgent, Recorded, Steps;
    results, trace := [], [];
    var all := ops + [ScheduleOp];
    ghost var start := s.Now();
    NothingRecorded<Moment, Op, Result>(all, start);
    for i := 0 to |all|
      invariant s.Valid() && Recorded(trace, all[..i], start, s.Now()) && |results| == |trace| == i
      invariant forall k :: 0 <= k < i ==> trace[k].result == results[k] && Steps(s.max, trace[k])
      invariant i == |all| && s.lockNest == 0 ==> MostUrgent(s.threads, s.current)
    {
      ghost var m := s.Now();
      var result := Step(s, all[i]);
      ghost var e := Entry(all[i], m, result, s.Now());
      OneMoreEntry(trace, all, start, m, i, e);
      results, trace := results + [result], trace + [e];
    }
    assert all[..|all|] == all;
  }
}
