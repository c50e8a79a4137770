/**
The scheduler of several cores: a ready queue per core for the threads bound to it, one for the
unbound threads, and the thread each core runs. Every operation runs under the scheduler lock
and is one step; the steps of all cores interleave.
*/
module SmpScheduler {
  import opened Ledger
  import opened Lists
  import opened ReadyQueue

  datatype Error = EOK | EINVAL | ERROR

  datatype Stat = Init | Ready | Running | Suspended

  datatype Thread = Thread(
    prio: nat,         // current_priority
    masks: Masks,
    stat: Stat,
    yielded: bool,     // RT_THREAD_STAT_YIELD
    bind: nat,         // bind_cpu; the number of cores if unbound
    oncpu: nat)        // the number of cores if detached (RT_CPU_DETACHED)

  datatype State = State(
    queues: seq<Queues>,    // one per core; the last one is for unbound threads
    threads: seq<Thread>,
    current: seq<nat>)      // current_thread of each core

  /** The thread with another priority; if it is ready it is listed anew and has not yielded. */
  function WithPriority(max: nat, th: Thread, p: nat): (r: Thread)
    ensures r.prio == p && r.stat == th.stat && r.masks == MasksOf(max, p)
  {
    th.(prio := p, masks := MasksOf(max, p), yielded := th.yielded && th.stat != Ready)
  }

  // ---- the invariant ------------------------------------------------------------------------------

  function HomeIn(th: Thread, where: nat): Option<nat> {
    if th.stat == Ready && th.bind == where then Some(th.prio) else None
  }

  ghost function Homes(ts: seq<Thread>, where: nat): seq<Option<nat>> {
    seq(|ts|, t requires 0 <= t < |ts| => HomeIn(ts[t], where))
  }

  /** The threads of one queue are exactly the ready threads it is for, and its bitmap agrees. */
  ghost predicate QueueOk(max: nat, q: Queues, ts: seq<Thread>, where: nat) {
    QueuesOk(max, q) && Listed(q.lists, Homes(ts, where))
  }

  ghost predicate AllQueues(max: nat, queues: seq<Queues>, ts: seq<Thread>) {
    forall i :: 0 <= i < |queues| ==> QueueOk(max, queues[i], ts, i)
  }

  ghost predicate ThreadOk(max: nat, cpus: nat, th: Thread) {
    && th.prio < max && th.bind <= cpus && th.oncpu <= cpus
    && (th.stat != Init ==> th.masks == MasksOf(max, th.prio))
    && (th.stat == Running ==> th.oncpu < cpus)
    && (th.stat == Ready || th.stat == Init ==> th.oncpu == cpus)
  }

  /** A thread is on a core exactly if it is the current thread of that core. */
  ghost predicate CoresOk(ts: seq<Thread>, current: seq<nat>) {
    && (forall c :: 0 <= c < |current| ==> current[c] < |ts| && ts[current[c]].oncpu == c)
    && (forall t :: 0 <= t < |ts| && ts[t].oncpu < |current| ==> current[ts[t].oncpu] == t)
  }

  ghost predicate Ok(max: nat, s: State) {
    && |s.queues| == |s.current| + 1
    && AllQueues(max, s.queues, s.threads)
    && (forall t :: 0 <= t < |s.threads| ==> ThreadOk(max, |s.current|, s.threads[t]))
    && CoresOk(s.threads, s.current)
  }

  /** `th` may run on core `c`. */
  predicate Allowed(th: Thread, cpus: nat, c: nat) {
    th.bind == cpus || th.bind == c
  }

  /** No ready thread allowed on core `c` is more urgent than `p`. */
  ghost predicate MostUrgent(ts: seq<Thread>, cpus: nat, c: nat, p: nat) {
    forall u :: 0 <= u < |ts| && ts[u].stat == Ready && Allowed(ts[u], cpus, c) ==> p <= ts[u].prio
  }

  /** A thread is ready that may run on core `c`. */
  ghost predicate SomeReady(ts: seq<Thread>, cpus: nat, c: nat) {
    exists u :: 0 <= u < |ts| && ts[u].stat == Ready && Allowed(ts[u], cpus, c)
  }

  // ---- lists --------------------------------------------------------------------------------------

  ghost predicate CanList(s: State, th: Thread) {
    && th.bind < |s.queues| && |s.queues[th.bind].table| == GROUPS && th.masks.number < GROUPS
    && th.prio < |s.queues[th.bind].lists|
  }

  /** `_sched_insert_thread_locked` */
  function Inserted(max: nat, s: State, t: nat): (r: State)
    requires t < |s.threads| && CanList(s, s.threads[t])
    ensures |r.threads| == |s.threads|
  {
    var th := s.threads[t];
    if th.stat == Ready then s
    else if th.oncpu != |s.current| then s.(threads := s.threads[t := th.(stat := Running)])
    else s.(queues := s.queues[th.bind := Enqueue(max, s.queues[th.bind], th.prio, th.masks, t, th.yielded)],
            threads := s.threads[t := th.(stat := Ready)])
  }

  /** `t` has been made ready and listed, with the masks of its priority. */
  ghost predicate Started(max: nat, s: State, t: nat, s': State)
    requires t < |s.threads|
  {
    var th := s.threads[t].(masks := MasksOf(max, s.threads[t].prio), stat := Suspended);
    var s1 := s.(threads := s.threads[t := th]);
    CanList(s1, th) && s' == Inserted(max, s1, t)
  }

  /** `_sched_remove_thread_locked` */
  function Removed(max: nat, s: State, t: nat): State
    requires t < |s.threads| && CanList(s, s.threads[t])
  {
    var th := s.threads[t];
    s.(queues := s.queues[th.bind := Dequeue(max, s.queues[th.bind], th.prio, th.masks, t)])
  }

  /** One thread changes, and the queue it is in or goes to with it. */
  lemma OneQueue(max: nat, s: State, i: nat, q: Queues, t: nat, th: Thread)
    requires |s.queues| == |s.current| + 1 && i < |s.queues| && t < |s.threads|
    requires AllQueues(max, s.queues, s.threads)
    requires QueuesOk(max, q) && Listed(q.lists, Homes(s.threads, i)[t := HomeIn(th, i)])
    requires forall j :: j != i ==> HomeIn(s.threads[t], j) == HomeIn(th, j)
    ensures AllQueues(max, s.queues[i := q], s.threads[t := th])
  {
    hide QueuesOk;
    hide Listed;
    var queues := s.queues[i := q];
    forall j | 0 <= j < |queues| ensures QueueOk(max, queues[j], s.threads[t := th], j) {
      assert QueueOk(max, s.queues[j], s.threads, j);
      assert Homes(s.threads[t := th], j) == Homes(s.threads, j)[t := HomeIn(th, j)];
      if j != i {
        assert Homes(s.threads, j)[t] == HomeIn(th, j);
        assert Homes(s.threads, j)[t := HomeIn(th, j)] == Homes(s.threads, j);
      }
    }
  }

  /** A thread that is ready neither before nor after does not concern the queues. */
  lemma NoQueue(max: nat, s: State, t: nat, th: Thread)
    requires |s.queues| == |s.current| + 1 && t < |s.threads|
    requires AllQueues(max, s.queues, s.threads)
    requires s.threads[t].stat != Ready && th.stat != Ready
    ensures AllQueues(max, s.queues, s.threads[t := th])
  {
    hide QueuesOk;
    hide Listed;
    forall j | 0 <= j < |s.queues| ensures QueueOk(max, s.queues[j], s.threads[t := th], j) {
      assert QueueOk(max, s.queues[j], s.threads, j);
      assert Homes(s.threads[t := th], j) == Homes(s.threads, j);
    }
  }

  /** Linking a detached thread into its queue. */
  lemma Linked(max: nat, s: State, t: nat)
    requires |s.queues| == |s.current| + 1 && t < |s.threads|
    requires AllQueues(max, s.queues, s.threads)
    requires var th := s.threads[t];
      th.stat != Ready && th.oncpu == |s.current| && th.prio < max && th.bind <= |s.current|
        && th.masks == MasksOf(max, th.prio)
    ensures CanList(s, s.threads[t])
    ensures var r := Inserted(max, s, t);
      && |r.queues| == |s.queues| && r.threads == s.threads[t := s.threads[t].(stat := Ready)] && r.current == s.current
      && AllQueues(max, r.queues, r.threads)
  {
    hide QueuesOk;
    hide Listed;
    hide Enqueue;
    var th := s.threads[t];
    var i := th.bind;
    assert QueueOk(max, s.queues[i], s.threads, i);
    QueueBounds(max, s.queues[i], th.prio);
    EnqueueKeeps(max, s.queues[i], Homes(s.threads, i), th.prio, t, th.yielded);
    OneQueue(max, s, i, Enqueue(max, s.queues[i], th.prio, th.masks, t, th.yielded), t, th.(stat := Ready));
  }

  /** A thread that is still on its core runs again and no queue changes. A detached thread is ready,
      in the queue of its binding and the list of its priority, at the end exactly if it yielded; no
      other queue or list changes, and taking it out again undoes that. */
  lemma InsertedOk(max: nat, s: State, t: nat)
    requires Ok(max, s) && t < |s.threads| && s.threads[t].stat == Suspended
    ensures CanList(s, s.threads[t]) && Ok(max, Inserted(max, s, t)) && Inserted(max, s, t).current == s.current
    ensures var r, th := Inserted(max, s, t), s.threads[t];
      if th.oncpu != |s.current| then r.queues == s.queues && r.threads == s.threads[t := th.(stat := Running)]
      else r.threads == s.threads[t := th.(stat := Ready)] && QueuedAt(s.queues, r.queues, t, th)
  {
    hide AllQueues;
    hide Enqueue;
    hide Remove;
    var th := s.threads[t];
    BoundList(max, s, t);
    if th.oncpu == |s.current| {
      Linked(max, s, t);
      QueueAfter(max, s, t);
    } else {
      NoQueue(max, s, t, th.(stat := Running));
    }
  }

  ghost predicate QueuedAt(queues: seq<Queues>, queues': seq<Queues>, t: nat, th: Thread) {
    && th.bind < |queues| == |queues'| && queues' == queues[th.bind := queues'[th.bind]]
    && var q, q' := queues[th.bind].lists, queues'[th.bind].lists;
       && th.prio < |q| == |q'| && (forall p :: 0 <= p < |q| && p != th.prio ==> q'[p] == q[p])
       && q'[th.prio] == (if th.yielded then q[th.prio] + [t] else [t] + q[th.prio])
       && Remove(q'[th.prio], t) == q[th.prio]
  }

  lemma QueueAfter(max: nat, s: State, t: nat)
    requires Ok(max, s) && t < |s.threads| && s.threads[t].stat == Suspended && s.threads[t].oncpu == |s.current|
    requires CanList(s, s.threads[t])
    ensures QueuedAt(s.queues, Inserted(max, s, t).queues, t, s.threads[t])
  {
    hide QueuesOk;
    hide Listed;
    hide Enqueue;
    hide Remove;
    var th := s.threads[t];
    assert QueueOk(max, s.queues[th.bind], s.threads, th.bind);
    UndoEnqueue(s.queues[th.bind].lists, Homes(s.threads, th.bind), th.prio, t);
  }

  /** Unlinking a thread that then has another status; a thread in no queue stays in none. */
  lemma Unlinked(max: nat, s: State, t: nat, th: Thread)
    requires |s.queues| == |s.current| + 1 && t < |s.threads|
    requires AllQueues(max, s.queues, s.threads)
    requires var was := s.threads[t]; was.prio < max && was.bind <= |s.current| && was.masks == MasksOf(max, was.prio)
    requires th.stat != Ready
    ensures CanList(s, s.threads[t])
    ensures var r := Removed(max, s, t);
      && |r.queues| == |s.queues| && AllQueues(max, r.queues, s.threads[t := th])
      && (s.threads[t].stat != Ready ==> r.queues[s.threads[t].bind].lists == s.queues[s.threads[t].bind].lists)
  {
    hide QueuesOk;
    hide Listed;
    hide Dequeue;
    var was := s.threads[t];
    var i := was.bind;
    assert QueueOk(max, s.queues[i], s.threads, i);
    QueueBounds(max, s.queues[i], was.prio);
    DequeueKeeps(max, s.queues[i], Homes(s.threads, i), was.prio, t);
    OneQueue(max, s, i, Dequeue(max, s.queues[i], was.prio, was.masks, t), t, th);
  }

  // ---- picking ------------------------------------------------------------------------------------

  /** The first thread of one queue. */
  lemma FirstOf(max: nat, s: State, i: nat) returns (p: nat, t: nat)
    requires Ok(max, s) && i < |s.queues| && s.queues[i].group != 0
    ensures CanPick(max, s.queues[i]) && p == Highest(max, s.queues[i]) && p < |s.queues[i].lists|
    ensures s.queues[i].lists[p] != [] && t == s.queues[i].lists[p][0]
    ensures t < |s.threads| && s.threads[t].stat == Ready && s.threads[t].bind == i && s.threads[t].prio == p
    ensures forall u :: 0 <= u < |s.threads| && s.threads[u].stat == Ready && s.threads[u].bind == i ==>
      p <= s.threads[u].prio
  {
    hide Highest;
    hide CanPick;
    hide Listed;
    var q, home := s.queues[i], Homes(s.threads, i);
    assert QueueOk(max, q, s.threads, i);
    HighestThread(max, q, home);
    p := Highest(max, q);
    t := q.lists[p][0];
    assert HomeIn(s.threads[t], i) == Some(p);
    forall u | 0 <= u < |s.threads| && s.threads[u].stat == Ready && s.threads[u].bind == i
      ensures p <= s.threads[u].prio
    {
      assert home[u] == Some(s.threads[u].prio);
    }
  }

  lemma NoneIn(max: nat, s: State, i: nat)
    requires Ok(max, s) && i < |s.queues|
    ensures s.queues[i].group == 0 ==> forall u :: 0 <= u < |s.threads| && s.threads[u].stat == Ready ==>
      s.threads[u].bind != i
  {
    hide QueuesOk;
    hide Listed;
    assert QueueOk(max, s.queues[i], s.threads, i);
    if u :| 0 <= u < |s.threads| && s.threads[u].stat == Ready && s.threads[u].bind == i {
      assert Homes(s.threads, i)[u] == Some(s.threads[u].prio);
      NobodyListed(max, s.queues[i], Homes(s.threads, i), u);
    }
  }

  /** `to` stands first in the list of its priority in the queue of its binding. */
  ghost predicate HeadOf(s: State, to: nat) {
    && to < |s.threads| && var th := s.threads[to];
    && th.bind < |s.queues| && th.prio < |s.queues[th.bind].lists| && s.queues[th.bind].lists[th.prio] != []
    && s.queues[th.bind].lists[th.prio][0] == to
  }

  /** An unbound thread is not taken if one bound to core `c` is as urgent. */
  ghost predicate LocalFirst(ts: seq<Thread>, cpus: nat, c: nat, to: nat)
    requires to < |ts|
  {
    ts[to].bind == cpus ==>
      forall u :: 0 <= u < |ts| && ts[u].stat == Ready && ts[u].bind == c ==> ts[to].prio < ts[u].prio
  }

  // ---- switching ----------------------------------------------------------------------------------

  /** A change that touches neither status nor binding nor priority does not concern the queues. */
  lemma SameHome(max: nat, queues: seq<Queues>, ts: seq<Thread>, t: nat, th: Thread)
    requires AllQueues(max, queues, ts) && t < |ts|
    requires th.stat == ts[t].stat && th.bind == ts[t].bind && th.prio == ts[t].prio
    ensures AllQueues(max, queues, ts[t := th])
  {
    hide QueuesOk;
    hide Listed;
    forall j | 0 <= j < |queues| ensures QueueOk(max, queues[j], ts[t := th], j) {
      assert QueueOk(max, queues[j], ts, j);
      assert Homes(ts[t := th], j) == Homes(ts, j);
    }
  }

  /** The threads and cores after core `c` has gone over to `to`. */
  ghost predicate Handover(s: State, c: nat, to: nat, r: State)
    requires c < |s.current| && s.current[c] < |s.threads| && to < |s.threads|
  {
    var cur := s.current[c];
    && |r.threads| == |s.threads| && r.current == s.current[c := to]
    && r.threads[to] == s.threads[to].(stat := Running, oncpu := c)
    && r.threads[cur] == (if s.threads[cur].stat == Running
                          then s.threads[cur].(stat := Ready, oncpu := |s.current|, yielded := false)
                          else s.threads[cur].(oncpu := |s.current|))
    && forall u :: 0 <= u < |s.threads| && u != cur && u != to ==> r.threads[u] == s.threads[u]
  }

  /** The current thread of core `c` leaves the core, for the ready queue if it is running. */
  function Detached(max: nat, s: State, c: nat): State
    requires c < |s.current| && s.current[c] < |s.threads| && CanList(s, s.threads[s.current[c]])
  {
    var cur := s.current[c];
    var a := s.(threads := s.threads[cur := s.threads[cur].(oncpu := |s.current|)]);
    if s.threads[cur].stat == Running then
      var b := Inserted(max, a, cur);
      b.(threads := b.threads[cur := b.threads[cur].(yielded := false)])
    else a
  }

  lemma DetachedQueues(max: nat, s: State, c: nat)
    requires Ok(max, s) && c < |s.current|
    ensures s.current[c] < |s.threads| && CanList(s, s.threads[s.current[c]])
    ensures var cur, r := s.current[c], Detached(max, s, c);
      && |r.queues| == |s.queues| && r.current == s.current && AllQueues(max, r.queues, r.threads)
      && r.threads == s.threads[cur := if s.threads[cur].stat == Running
                                       then s.threads[cur].(stat := Ready, oncpu := |s.current|, yielded := false)
                                       else s.threads[cur].(oncpu := |s.current|)]
  {
    hide AllQueues;
    var cur := s.current[c];
    var th := s.threads[cur];
    var a := s.(threads := s.threads[cur := th.(oncpu := |s.current|)]);
    SameHome(max, s.queues, s.threads, cur, th.(oncpu := |s.current|));
    BoundList(max, s, cur);
    if th.stat == Running {
      Linked(max, a, cur);
      var b := Inserted(max, a, cur);
      SameHome(max, b.queues, b.threads, cur, b.threads[cur].(yielded := false));
    }
  }

  lemma BoundList(max: nat, s: State, t: nat)
    requires Ok(max, s) && t < |s.threads| && s.threads[t].stat != Init
    ensures CanList(s, s.threads[t])
  {
    hide Listed;
    var th := s.threads[t];
    assert QueueOk(max, s.queues[th.bind], s.threads, th.bind);
    QueueBounds(max, s.queues[th.bind], th.prio);
  }

  /** `to` comes from its ready queue onto core `c`. */
  function Attached(max: nat, s: State, c: nat, to: nat): State
    requires c < |s.current| && to < |s.threads| && CanList(s, s.threads[to])
  {
    var a := s.(threads := s.threads[to := s.threads[to].(oncpu := c)]);
    var b := Removed(max, a, to);
    State(b.queues, b.threads[to := b.threads[to].(stat := Running)], s.current[c := to])
  }

  lemma SwitchedOk(max: nat, s: State, c: nat, to: nat)
    requires Ok(max, s) && c < |s.current| && to < |s.threads| && s.threads[to].stat == Ready
    ensures s.current[c] < |s.threads| && s.current[c] != to && CanList(s, s.threads[s.current[c]])
    ensures var d := Detached(max, s, c);
      |d.threads| == |s.threads| && |d.current| == |s.current| && CanList(d, d.threads[to])
    ensures var r := Attached(max, Detached(max, s, c), c, to); Ok(max, r) && Handover(s, c, to, r)
  {
    hide AllQueues;
    hide Detached;
    DetachedQueues(max, s, c);
    var d := Detached(max, s, c);
    var th := d.threads[to];
    assert th == s.threads[to];
    var a := d.(threads := d.threads[to := th.(oncpu := c)]);
    SameHome(max, d.queues, d.threads, to, th.(oncpu := c));
    Unlinked(max, a, to, th.(oncpu := c, stat := Running));
    var r := Attached(max, d, c, to);
    assert r.threads == a.threads[to := th.(oncpu := c, stat := Running)];
    assert Handover(s, c, to, r);
    HandoverCores(max, s, c, to, r);
  }

  /** The queues too: the old thread is in again if it was running, the new one is out. */
  ghost predicate Switched(max: nat, s: State, c: nat, to: nat, r: State) {
    && c < |s.current| && s.current[c] < |s.threads| && to < |s.threads| && CanList(s, s.threads[s.current[c]])
    && var d := Detached(max, s, c);
       && |d.threads| == |s.threads| && |d.current| == |s.current| && CanList(d, d.threads[to])
       && r == Attached(max, d, c, to)
  }

  lemma HandoverCores(max: nat, s: State, c: nat, to: nat, r: State)
    requires Ok(max, s) && c < |s.current| && to < |s.threads| && s.threads[to].stat == Ready && Handover(s, c, to, r)
    ensures CoresOk(r.threads, r.current) && forall t :: 0 <= t < |r.threads| ==>
      ThreadOk(max, |r.current|, r.threads[t])
  {
    hide AllQueues;
  }

  // ---- the scheduler ------------------------------------------------------------------------------

  /** Whether core `c` keeps running `th` although a thread of priority `p` is ready for it. */
  predicate Stays(th: Thread, cpus: nat, c: nat, p: nat) {
    th.stat == Running && Allowed(th, cpus, c) && (th.prio < p || (th.prio == p && !th.yielded))
  }

  /** Core `c` keeps running `cur` whichever thread is ready for it. */
  ghost predicate NoneDisplaces(ts: seq<Thread>, cpus: nat, c: nat, cur: nat)
    requires cur < |ts|
  {
    forall u :: 0 <= u < |ts| && ts[u].stat == Ready && Allowed(ts[u], cpus, c) ==>
      Stays(ts[cur], cpus, c, ts[u].prio)
  }

  lemma HandoverUrgent(max: nat, s: State, c: nat, p: nat, to: nat, r: State)
    requires Ok(max, s) && c < |s.current| && to < |s.threads| && s.threads[to].prio == p && s.current[c] != to
    requires MostUrgent(s.threads, |s.current|, c, p) && !Stays(s.threads[s.current[c]], |s.current|, c, p)
    requires Handover(s, c, to, r)
    ensures MostUrgent(r.threads, |s.current|, c, p)
  {
    hide AllQueues;
    var cur := s.current[c];
    forall u | 0 <= u < |r.threads| && r.threads[u].stat == Ready && Allowed(r.threads[u], |s.current|, c)
      ensures p <= r.threads[u].prio
    {
      if u != cur && u != to {
        assert r.threads[u] == s.threads[u];
      }
    }
  }

  class Scheduler {
    const max: nat             // RT_THREAD_PRIORITY_MAX
    var queues: seq<Queues>
    var threads: seq<Thread>
    var current: seq<nat>

    ghost predicate Valid()
      reads this
    {
      Ok(max, View())
    }

    ghost function View(): State
      reads this
    {
      State(queues, threads, current)
    }

    /** `cpus` cores that each run the thread of their own number, and threads not started yet. */
    constructor (max: nat, cpus: nat, prios: seq<nat>)
      requires 0 < max <= 256 && 0 < cpus <= |prios| && forall t :: 0 <= t < |prios| ==> prios[t] < max
      ensures Valid() && this.max == max && |current| == cpus && |threads| == |prios|
      ensures forall t :: 0 <= t < |prios| ==> threads[t].prio == prios[t]
      ensures forall t :: 0 <= t < |prios| ==> threads[t].stat == if t < cpus then Running else Init
    {
      this.max := max;
      var empty := Queues(seq(max, _ => []), 0, seq(GROUPS, _ => 0));
      queues := seq(cpus + 1, _ => empty);
      threads := seq(|prios|, t requires 0 <= t < |prios| =>
        if t < cpus then Thread(prios[t], MasksOf(max, prios[t]), Running, false, cpus, t)
        else Thread(prios[t], Masks(0, 0, 0), Init, false, cpus, cpus));
      current := seq(cpus, c => c);
      new;
      EmptyQueues(max, empty);
    }

    /** `_sched_insert_thread_locked` */
    method InsertThread(t: nat)
      requires t < |threads| && CanList(View(), threads[t])
      modifies this`queues, this`threads
      ensures View() == Inserted(max, old(View()), t)
    {
      hide Enqueue;
      if threads[t].stat == Ready {
        return;
      } else if threads[t].oncpu != |current| {
        threads := threads[t := threads[t].(stat := Running)];
        return;
      }
      threads := threads[t := threads[t].(stat := Ready)];
      var th := threads[t];
      queues := queues[th.bind := Enqueue(max, queues[th.bind], th.prio, th.masks, t, th.yielded)];
    }

    /** `_sched_remove_thread_locked` */
    method RemoveThread(t: nat)
      requires t < |threads| && CanList(View(), threads[t])
      modifies this`queues
      ensures View() == Removed(max, old(View()), t)
    {
      var th := threads[t];
      queues := queues[th.bind := Dequeue(max, queues[th.bind], th.prio, th.masks, t)];
    }

    /** `_scheduler_get_highest_priority_thread` on core `c`; of equals, the one bound to the core. */
    method GetHighest(c: nat) returns (to: nat, p: nat)
      requires Valid() && c < |current| && (queues[|current|].group != 0 || queues[c].group != 0)
      ensures to < |threads| && threads[to].stat == Ready && threads[to].prio == p && Allowed(threads[to], |current|, c)
      ensures MostUrgent(threads, |current|, c, p) && HeadOf(View(), to) && LocalFirst(threads, |current|, c, to)
    {
      hide Ok;
      hide CanPick;
      hide Highest;
      ghost var s := View();
      OkShape(max, s);
      NoneIn(max, s, |current|);
      NoneIn(max, s, c);
      var global, local := queues[|current|], queues[c];
      if local.group == 0 {
        ghost var _, _ := FirstOf(max, s, |current|);
        p := Highest(max, global);
        to := global.lists[p][0];
      } else if global.group == 0 {
        ghost var _, _ := FirstOf(max, s, c);
        p := Highest(max, local);
        to := local.lists[p][0];
      } else {
        ghost var _, _ := FirstOf(max, s, |current|);
        ghost var _, _ := FirstOf(max, s, c);
        if Highest(max, global) < Highest(max, local) {
          p := Highest(max, global);
          to := global.lists[p][0];
        } else {
          p := Highest(max, local);
          to := local.lists[p][0];
        }
      }
    }

    /** `_prepare_context_switch_locked` on core `c` and the switch it decides on. */
    method Schedule(c: nat) returns (switched: bool)
      requires Valid() && c < |current|
      modifies this
      ensures Valid() && |threads| == |old(threads)| && |current| == |old(current)|
      ensures switched <==> current[c] != old(current)[c]
      ensures switched ==>
        && old(threads)[current[c]].stat == Ready
        && threads[current[c]].stat == Running && threads[current[c]].oncpu == c
        && Allowed(threads[current[c]], |current|, c) && MostUrgent(threads, |current|, c, threads[current[c]].prio)
        && MostUrgent(old(threads), |current|, c, threads[current[c]].prio)
        && HeadOf(old(View()), current[c]) && LocalFirst(old(threads), |current|, c, current[c])
        && old(current)[c] < |threads| && !Stays(old(threads)[old(current)[c]], |current|, c, threads[current[c]].prio)
        && Handover(old(View()), c, current[c], View()) && Switched(max, old(View()), c, current[c], View())
      ensures !switched ==> current[c] < |threads| && NoneDisplaces(old(threads), |current|, c, current[c])
      ensures !switched && old(SomeReady(threads, |current|, c)) ==>
        && threads[current[c]].stat == Running && Allowed(threads[current[c]], |current|, c)
        && MostUrgent(threads, |current|, c, threads[current[c]].prio)
        && threads == old(threads)[current[c] := old(threads)[current[c]].(yielded := false)]
      ensures !switched ==> current == old(current) && queues == old(queues)
      ensures !switched && !old(SomeReady(threads, |current|, c)) ==> threads == old(threads)
    {
      hide Ok;
      ghost var s := View();
      OkShape(max, s);
      OkCore(max, s, c);
      NoneIn(max, s, |current|);
      NoneIn(max, s, c);
      var cur := current[c];
      if queues[|current|].group != 0 || queues[c].group != 0 {
        var to, p := GetHighest(c);
        var th := threads[cur];
        if th.stat == Running && (th.bind == |current| || th.bind == c)
           && (th.prio < p || (th.prio == p && !th.yielded)) {
          // detached, found to be the best choice and attached again
          StayOk(max, s, c);
          threads := threads[cur := threads[cur].(oncpu := |current|)];
          threads := threads[cur := threads[cur].(yielded := false)];
          threads := threads[cur := threads[cur].(oncpu := c)];
          assert threads == s.threads[cur := th.(yielded := false)];
          return false;
        }
        SwitchTo(c, to, p);
        return true;
      }
      return false;
    }

    method SwitchTo(c: nat, to: nat, ghost p: nat)
      requires Valid() && c < |current| && to < |threads| && threads[to].stat == Ready && threads[to].prio == p
      requires current[c] < |threads| && MostUrgent(threads, |current|, c, p)
      requires !Stays(threads[current[c]], |current|, c, p)
      modifies this
      ensures Valid() && old(current)[c] != to && Handover(old(View()), c, to, View())
      ensures MostUrgent(threads, |current|, c, p)
      ensures Switched(max, old(View()), c, to, View())
    {
      hide Ok;
      hide Inserted;
      hide Removed;
      ghost var s := View();
      SwitchedOk(max, s, c, to);
      HandoverUrgent(max, s, c, p, to, Attached(max, Detached(max, s, c), c, to));
      InsertBounds(max, s, c);
      var cur := current[c];
      var running := threads[cur].stat == Running;
      threads := threads[cur := threads[cur].(oncpu := |current|)];
      if running {
        InsertThread(cur);
        threads := threads[cur := threads[cur].(yielded := false)];
      }
      assert View() == Detached(max, s, c);
      threads := threads[to := threads[to].(oncpu := c)];
      RemoveThread(to);
      threads := threads[to := threads[to].(stat := Running)];
      current := current[c := to];
    }

    /** `rt_sched_thread_ready`, for a thread without a running timer. A thread that has suspended
        itself but is still on its core goes on running. */
    method ReadyThread(t: nat) returns (r: Error)
      requires Valid() && t < |threads|
      modifies this`queues, this`threads
      ensures Valid() && (r == EOK <==> old(threads)[t].stat == Suspended)
      ensures r == EOK ==> var th := old(threads)[t];
        threads == old(threads)[t := th.(stat := if th.oncpu == |current| then Ready else Running)]
      ensures r == EOK ==> CanList(old(View()), old(threads)[t]) && View() == Inserted(max, old(View()), t)
      ensures r != EOK ==> r == EINVAL && View() == old(View())
    {
      hide Ok;
      if threads[t].stat != Suspended {
        return EINVAL;
      }
      InsertedOk(max, View(), t);
      InsertThread(t);
      return EOK;
    }

    /** `rt_thread_suspend_to_list` by the thread on core `c`. */
    method SuspendSelf(c: nat) returns (r: Error)
      requires Valid() && c < |current|
      modifies this`queues, this`threads
      ensures Valid() && |threads| == |old(threads)|
      ensures r == if old(threads)[current[c]].stat == Running then EOK else ERROR
      ensures threads ==
        if r == EOK then old(threads)[current[c] := old(threads)[current[c]].(stat := Suspended)] else old(threads)
      ensures |queues| == |old(queues)| && forall i :: 0 <= i < |queues| ==> queues[i].lists == old(queues)[i].lists
    {
      hide AllQueues;
      var t := current[c];
      if threads[t].stat != Ready && threads[t].stat != Running {
        return ERROR;
      }
      BoundList(max, View(), t);
      Unlinked(max, View(), t, threads[t].(stat := Suspended));
      RemoveThread(t);
      threads := threads[t := threads[t].(stat := Suspended)];
      return EOK;
    }

    /** `rt_sched_thread_yield` by the thread on core `c`. */
    method GiveWay(c: nat)
      requires Valid() && c < |current|
      modifies this`threads
      ensures Valid() && |threads| == |old(threads)|
      ensures threads == old(threads)[current[c] := old(threads)[current[c]].(yielded := true)]
    {
      hide AllQueues;
      var t := current[c];
      SameHome(max, queues, threads, t, threads[t].(yielded := true));
      threads := threads[t := threads[t].(yielded := true)];
    }

    ghost function Ring(c: nat): seq<nat>
      reads this
    {
      RingOf(View(), c)
    }

    /** Core `c` is rightly running its thread, and the threads ready for it that are as urgent have the
        same binding. */
    ghost predicate Steady(c: nat)
      reads this
    {
      Valid() && c < |current| && SteadyCore(View(), c)
    }

    /** `rt_thread_yield` on core `c`: the current thread goes behind the others of its queue and
        priority. */
    method Yield(c: nat)
      requires Steady(c)
      modifies this
      ensures Steady(c) && |current| == |old(current)|
      ensures old(Ring(c)) != [] && Ring(c) == old(Ring(c))[1..] + [old(Ring(c))[0]]
    {
      hide Ok, SteadyCore, RingOf, Switched, HeadOf, MostUrgent, LocalFirst, NoneDisplaces, Stays;
      OkCore(max, View(), c);
      GivesWay(View(), c);
      GiveWay(c);
      ghost var s := View();
      OkCore(max, s, c);
      RingShape(max, s, c);
      var switched := Schedule(c);
      OkCore(max, View(), c);
      if switched {
        RingStep(max, s, c, current[c], View());
      } else {
        RingAlone(max, s, c, View());
      }
    }

    /** As many yields on one core as there are threads in the ring run each of them once, in order,
        and leave the ring as it was. */
    method YieldRound(c: nat) returns (ran: seq<nat>)
      requires Steady(c)
      modifies this
      ensures Steady(c) && Ring(c) == old(Ring(c)) && ran == old(Ring(c))
    {
      hide Ok, RingOf, SteadyCore;
      RingShape(max, View(), c);
      ghost var ring := Ring(c);
      ran := [];
      var n := 1 + |queues[threads[current[c]].bind].lists[threads[current[c]].prio]|;
      for i := 0 to n
        invariant Steady(c)
        invariant |ring| == n && ran == ring[..i] && Ring(c) == ring[i..] + ring[..i]
      {
        RingShape(max, View(), c);
        Rotate(ring, i);
        ran := ran + [current[c]];
        Yield(c);
      }
    }

    /** `rt_sched_thread_change_priority` */
    method ChangePriority(t: nat, p: nat)
      requires Valid() && t < |threads| && p < max
      modifies this`queues, this`threads
      ensures Valid() && |threads| == |old(threads)|
      ensures threads == old(threads)[t := WithPriority(max, old(threads)[t], p)]
      ensures threads[t].prio == p && threads[t].stat == old(threads)[t].stat && threads[t].masks == MasksOf(max, p)
      ensures old(threads)[t].stat != Ready ==> queues == old(queues)
      ensures old(threads)[t].stat == Ready ==>
        var b, was := threads[t].bind, old(threads)[t].prio;
        && b < |old(queues)| == |queues| && queues == old(queues)[b := queues[b]]
        && was < |old(queues)[b].lists| && p < |old(queues)[b].lists|
        && queues[b].lists == Moved(old(queues)[b].lists, was, p, t)
    {
      hide AllQueues, Enqueue, Dequeue, MasksOf;
      ghost var s := View();
      if threads[t].stat == Ready {
        var th := threads[t].(prio := p, masks := MasksOf(max, p), stat := Init, yielded := false);
        Unlinked(max, s, t, th);
        RemoveThread(t);
        threads := threads[t := threads[t].(prio := p)];
        threads := threads[t := threads[t].(masks := MasksOf(max, p))];
        threads := threads[t := threads[t].(stat := Init, yielded := false)];
        assert threads == old(threads)[t := th];
        Linked(max, View(), t);
        InsertThread(t);
      } else {
        NoQueue(max, s, t, threads[t].(prio := p, masks := MasksOf(max, p)));
        threads := threads[t := threads[t].(prio := p, masks := MasksOf(max, p))];
      }
    }

    /** `rt_thread_startup` */
    method Startup(t: nat)
      requires Valid() && t < |threads| && threads[t].stat == Init
      modifies this`queues, this`threads
      ensures Valid() && |threads| == |old(threads)|
      ensures threads == old(threads)[t := old(threads)[t].(masks := MasksOf(max, threads[t].prio), stat := Ready)]
      ensures Started(max, old(View()), t, View())
    {
      hide AllQueues;
      hide Enqueue;
      ghost var s := View();
      NoQueue(max, s, t, threads[t].(masks := MasksOf(max, threads[t].prio), stat := Suspended));
      threads := threads[t := threads[t].(masks := MasksOf(max, threads[t].prio), stat := Suspended)];
      var _ := ReadyThread(t);
    }

    /**
    `rt_sched_thread_bind_cpu`, up to the release of the lock. Binding a ready thread takes it out
    of its queue and leaves it ready but in none, because the insertion finds it ready already:
    the state stays consistent exactly if the thread is not ready.
    */
    method Bind(t: nat, cpu: nat)
      requires Valid() && t < |threads|
      modifies this`queues, this`threads
      ensures |threads| == |old(threads)|
      ensures threads == old(threads)[t := old(threads)[t].(bind := if cpu >= |current| then |current| else cpu)]
      ensures Valid() <==> old(threads)[t].stat != Ready
      ensures old(threads)[t].stat != Ready ==> queues == old(queues)
      ensures old(threads)[t].stat == Ready ==> forall i, p :: 0 <= i < |queues| && 0 <= p < |queues[i].lists| ==>
        t !in queues[i].lists[p]
    {
      hide AllQueues;
      hide Dequeue;
      ghost var s := View();
      var target := if cpu >= |current| then |current| else cpu;
      if threads[t].stat == Ready {
        BoundList(max, s, t);
        BindLoses(max, s, t, target);
        RemoveThread(t);
        threads := threads[t := threads[t].(bind := target)];
        BindList(max, s, Removed(max, s, t), t, target);
        InsertThread(t);
      } else {
        NoQueue(max, s, t, threads[t].(bind := target));
        threads := threads[t := threads[t].(bind := target)];
      }
    }
  }

  /** A ready thread that is bound ends up in no queue. */
  lemma BindLoses(max: nat, s: State, t: nat, target: nat)
    requires Ok(max, s) && t < |s.threads| && s.threads[t].stat == Ready && target <= |s.current|
    requires CanList(s, s.threads[t])
    ensures var r := Removed(max, s, t).(threads := s.threads[t := s.threads[t].(bind := target)]);
      && (forall i, p :: 0 <= i < |r.queues| && 0 <= p < |r.queues[i].lists| ==> t !in r.queues[i].lists[p])
      && !Ok(max, r)
  {
    hide Dequeue;
    var th := s.threads[t];
    var q := Removed(max, s, t).queues;
    forall i, p | 0 <= i < |q| && 0 <= p < |q[i].lists| ensures t !in q[i].lists[p] {
      assert QueueOk(max, s.queues[i], s.threads, i);
      NotListed(max, s, i, p, t);
      if i == th.bind && p == th.prio {
        RemoveFacts(s.queues[i].lists[p], t);
      }
    }
    var r := Removed(max, s, t).(threads := s.threads[t := th.(bind := target)]);
    if Ok(max, r) {
      ReadyIsListed(max, r, t);
    }
  }

  /** Every ready thread is in the queue it is bound to, in the list of its priority. */
  lemma ReadyIsListed(max: nat, s: State, t: nat)
    requires Ok(max, s) && t < |s.threads| && s.threads[t].stat == Ready
    ensures var th := s.threads[t];
      th.bind < |s.queues| && th.prio < |s.queues[th.bind].lists| && t in s.queues[th.bind].lists[th.prio]
  {
    var th := s.threads[t];
    assert QueueOk(max, s.queues[th.bind], s.threads, th.bind);
    NotListed(max, s, th.bind, th.prio, t);
  }

  lemma NotListed(max: nat, s: State, i: nat, p: nat, t: nat)
    requires i < |s.queues| && QueueOk(max, s.queues[i], s.threads, i) && p < |s.queues[i].lists| && t < |s.threads|
    ensures Distinct(s.queues[i].lists[p])
    ensures t in s.queues[i].lists[p] <==>
      s.threads[t].stat == Ready && s.threads[t].bind == i && s.threads[t].prio == p
  {
    assert ListedAt(s.queues[i].lists[p], Homes(s.threads, i), p);
    assert Homes(s.threads, i)[t] == HomeIn(s.threads[t], i);
  }

  lemma BindList(max: nat, s: State, r: State, t: nat, target: nat)
    requires Ok(max, s) && t < |s.threads| && s.threads[t].stat == Ready && target <= |s.current|
    requires CanList(s, s.threads[t])
    requires r == Removed(max, s, t)
    ensures CanList(r, s.threads[t].(bind := target))
  {
    hide Dequeue;
    hide Listed;
    assert QueueOk(max, s.queues[target], s.threads, target);
    QueueBounds(max, s.queues[target], s.threads[t].prio);
  }

  lemma OkShape(max: nat, s: State)
    requires Ok(max, s)
    ensures |s.queues| == |s.current| + 1
  {
  }

  lemma OkCore(max: nat, s: State, c: nat)
    requires Ok(max, s) && c < |s.current|
    ensures s.current[c] < |s.threads| && s.threads[s.current[c]].oncpu == c && s.threads[s.current[c]].stat != Ready
  {
    hide AllQueues;
  }

  lemma StayOk(max: nat, s: State, c: nat)
    requires Ok(max, s) && c < |s.current|
    ensures s.current[c] < |s.threads|
    ensures Ok(max, s.(threads := s.threads[s.current[c] := s.threads[s.current[c]].(yielded := false)]))
  {
    hide AllQueues;
    var cur := s.current[c];
    SameHome(max, s.queues, s.threads, cur, s.threads[cur].(yielded := false));
  }

  lemma InsertBounds(max: nat, s: State, c: nat)
    requires Ok(max, s) && c < |s.current|
    ensures s.current[c] < |s.threads| && CanList(s, s.threads[s.current[c]])
  {
    DetachedQueues(max, s, c);
  }

  // ---- yielding -----------------------------------------------------------------------------------

  /** The thread of core `c` and those ready in its queue with its priority, in the order in which
      they will run. */
  ghost function RingOf(s: State, c: nat): seq<nat> {
    if c < |s.current| && s.current[c] < |s.threads| && CanList(s, s.threads[s.current[c]]) then
      var th := s.threads[s.current[c]];
      [s.current[c]] + s.queues[th.bind].lists[th.prio]
    else []
  }

  ghost predicate SteadyCore(s: State, c: nat)
    requires c < |s.current|
  {
    && s.current[c] < |s.threads| && var th := s.threads[s.current[c]];
    && th.stat == Running && Allowed(th, |s.current|, c) && MostUrgent(s.threads, |s.current|, c, th.prio)
    && forall u :: 0 <= u < |s.threads| && s.threads[u].stat == Ready && Allowed(s.threads[u], |s.current|, c) ==>
         s.threads[u].prio == th.prio ==> s.threads[u].bind == th.bind
  }

  lemma GivesWay(s: State, c: nat)
    requires c < |s.current| && SteadyCore(s, c)
    ensures var r := s.(threads := s.threads[s.current[c] := s.threads[s.current[c]].(yielded := true)]);
      SteadyCore(r, c) && RingOf(r, c) == RingOf(s, c)
  {
  }

  lemma RingShape(max: nat, s: State, c: nat)
    requires Ok(max, s) && c < |s.current| && SteadyCore(s, c)
    ensures s.current[c] < |s.threads| && CanList(s, s.threads[s.current[c]])
    ensures var th := s.threads[s.current[c]];
      |RingOf(s, c)| == 1 + |s.queues[th.bind].lists[th.prio]| && RingOf(s, c)[0] == s.current[c]
  {
    hide Ok;
    BoundList(max, s, s.current[c]);
  }

  /** A thread that yields and goes on is alone in its queue at its priority. */
  lemma RingAlone(max: nat, s: State, c: nat, r: State)
    requires Ok(max, s) && c < |s.current| && SteadyCore(s, c) && s.threads[s.current[c]].yielded
    requires NoneDisplaces(s.threads, |s.current|, c, s.current[c])
    requires r.current == s.current && r.queues == s.queues
    requires
      || r.threads == s.threads
      || r.threads == s.threads[s.current[c] := s.threads[s.current[c]].(yielded := false)]
    ensures RingOf(s, c) == RingOf(r, c) == [s.current[c]] && SteadyCore(r, c)
  {
    hide Ok;
    BoundList(max, s, s.current[c]);
    var th := s.threads[s.current[c]];
    var list := s.queues[th.bind].lists[th.prio];
    if list != [] {
      ListedReady(max, s, th.bind, th.prio, list[0]);
    }
  }

  lemma ListedReady(max: nat, s: State, i: nat, p: nat, u: nat)
    requires Ok(max, s) && i < |s.queues| && p < |s.queues[i].lists| && u in s.queues[i].lists[p]
    ensures u < |s.threads| && s.threads[u].stat == Ready && s.threads[u].bind == i && s.threads[u].prio == p
  {
    assert QueueOk(max, s.queues[i], s.threads, i);
    assert ListedAt(s.queues[i].lists[p], Homes(s.threads, i), p);
    assert Homes(s.threads, i)[u] == Some(p);
  }

  /** What holds when core `c` switches to `to` although its thread was rightly running: that thread
      has yielded, and `to` comes from the same list. */
  ghost predicate YieldsTo(max: nat, s: State, c: nat, to: nat) {
    && Ok(max, s) && c < |s.current| && SteadyCore(s, c) && s.threads[s.current[c]].yielded
    && to < |s.threads| && to != s.current[c] && s.threads[to].stat == Ready && Allowed(s.threads[to], |s.current|, c)
    && HeadOf(s, to) && MostUrgent(s.threads, |s.current|, c, s.threads[to].prio)
    && !Stays(s.threads[s.current[c]], |s.current|, c, s.threads[to].prio)
  }

  lemma SameList(max: nat, s: State, c: nat, to: nat)
    requires YieldsTo(max, s, c, to)
    ensures var th := s.threads[s.current[c]];
      s.threads[to].prio == th.prio && s.threads[to].bind == th.bind && CanList(s, th)
  {
    hide Ok, HeadOf;
    BoundList(max, s, s.current[c]);
  }

  /** A yield that switches rotates the ring by one. */
  lemma RingStep(max: nat, s: State, c: nat, to: nat, r: State)
    requires YieldsTo(max, s, c, to) && Handover(s, c, to, r) && Switched(max, s, c, to, r)
    ensures RingOf(s, c) != [] && RingOf(r, c) == RingOf(s, c)[1..] + [s.current[c]] && SteadyCore(r, c)
  {
    hide Ok, Enqueue, Dequeue, Remove, MostUrgent, Allowed;
    SameList(max, s, c, to);
    StillSteady(max, s, c, to, r);
    var cur := s.current[c];
    RotateList(s.queues[s.threads[cur].bind].lists[s.threads[cur].prio], to, cur);
  }

  lemma StillSteady(max: nat, s: State, c: nat, to: nat, r: State)
    requires YieldsTo(max, s, c, to) && Handover(s, c, to, r)
    ensures SteadyCore(r, c)
  {
    hide Ok, HeadOf;
    SameList(max, s, c, to);
  }

  // ---- every run ----------------------------------------------------------------------------------

  datatype Op =
    | StartOp(t: nat) | ReadyOp(t: nat) | PriorityOp(t: nat, p: nat) | SuspendOp(c: nat) | YieldOp(c: nat)
    | BindOp(t: nat, cpu: nat) | ScheduleOp(c: nat)

  datatype Result = Skipped | Done | Answer(error: Error) | Scheduled(switched: bool)

  type Record = Entry<State, Op, Result>

  /** The operation can happen; binding a ready thread is left out. */
  predicate Enabled(max: nat, op: Op, s: State) {
    match op
    case StartOp(t) => t < |s.threads| && s.threads[t].stat == Init
    case ReadyOp(t) => t < |s.threads|
    case PriorityOp(t, p) => t < |s.threads| && p < max
    case BindOp(t, _) => t < |s.threads| && s.threads[t].stat != Ready
    case SuspendOp(c) => c < |s.current|
    case YieldOp(c) => c < |s.current|
    case ScheduleOp(c) => c < |s.current|
  }

  /** What each operation does and answers. */
  ghost predicate Steps(max: nat, e: Record) {
    var s, s' := e.before, e.after;
    CurrentKnown(s) &&
    if !Enabled(max, e.op, s) then e.result == Skipped && s' == s else
    match e.op
    case StartOp(t) => e.result == Done && Started(max, s, t, s')
    case ReadyOp(t) =>
      if s.threads[t].stat == Suspended
      then e.result == Answer(EOK) && CanList(s, s.threads[t]) && s' == Inserted(max, s, t)
      else e.result == Answer(EINVAL) && s' == s
    case PriorityOp(t, p) => e.result == Done && Reprioritized(max, s, t, p, s')
    case SuspendOp(c) =>
      var th := s.threads[s.current[c]];
      && SameLists(s.queues, s'.queues) && s'.current == s.current
      && if th.stat == Running
         then e.result == Answer(EOK) && s'.threads == s.threads[s.current[c] := th.(stat := Suspended)]
         else e.result == Answer(ERROR) && s'.threads == s.threads
    case YieldOp(c) =>
      && e.result == Done
      && s' == s.(threads := s.threads[s.current[c] := s.threads[s.current[c]].(yielded := true)])
    case BindOp(t, cpu) =>
      var target := if cpu >= |s.current| then |s.current| else cpu;
      e.result == Done && s' == s.(threads := s.threads[t := s.threads[t].(bind := target)])
    case ScheduleOp(c) =>
      && |s'.current| == |s.current| && CurrentKnown(s') && |s'.threads| == |s.threads|
      && e.result == Scheduled(s'.current[c] != s.current[c]) && Rescheduled(max, s, c, s')
  }

  ghost predicate CurrentKnown(s: State) {
    forall c :: 0 <= c < |s.current| ==> s.current[c] < |s.threads|
  }

  ghost predicate SameLists(queues: seq<Queues>, queues': seq<Queues>) {
    |queues'| == |queues| && forall i :: 0 <= i < |queues| ==> queues'[i].lists == queues[i].lists
  }

  /** `t` has the priority `p`, and has moved to its list if it is ready. */
  ghost predicate Reprioritized(max: nat, s: State, t: nat, p: nat, s': State)
    requires t < |s.threads|
  {
    var th := s.threads[t];
    && s'.current == s.current && s'.threads == s.threads[t := WithPriority(max, th, p)]
    && if th.stat != Ready then s'.queues == s.queues
       else
         && th.bind < |s.queues| == |s'.queues| && s'.queues == s.queues[th.bind := s'.queues[th.bind]]
         && var lists := s.queues[th.bind].lists;
            th.prio < |lists| && p < |lists| && s'.queues[th.bind].lists == Moved(lists, th.prio, p, t)
  }

  /** What `rt_schedule` on core `c` does: the most urgent ready thread that may run there takes
      over, or the current thread runs on if none displaces it. */
  ghost predicate Rescheduled(max: nat, s: State, c: nat, s': State)
    requires c < |s.current| == |s'.current| && CurrentKnown(s) && CurrentKnown(s') && |s'.threads| == |s.threads|
  {
    var to := s'.current[c];
    if to != s.current[c] then
      && s.threads[to].stat == Ready && Allowed(s.threads[to], |s.current|, c)
      && MostUrgent(s.threads, |s.current|, c, s.threads[to].prio) && HeadOf(s, to)
      && LocalFirst(s.threads, |s.current|, c, to)
      && !Stays(s.threads[s.current[c]], |s.current|, c, s.threads[to].prio)
      && Switched(max, s, c, to, s')
    else
      && s'.current == s.current && s'.queues == s.queues && NoneDisplaces(s.threads, |s.current|, c, to)
      && if SomeReady(s.threads, |s.current|, c) then
           && s'.threads == s.threads[to := s.threads[to].(yielded := false)] && s'.threads[to].stat == Running
           && Allowed(s'.threads[to], |s.current|, c) && MostUrgent(s'.threads, |s.current|, c, s'.threads[to].prio)
         else s'.threads == s.threads
  }

  /** One operation of one core; one that cannot happen does nothing. */
  method Step(s: Scheduler, op: Op) returns (result: Result)
    requires s.Valid()
    modifies s
    ensures s.Valid() && Steps(s.max, Entry(op, old(s.View()), result, s.View()))
  {
    hide AllQueues, MostUrgent, SomeReady, Switched, Inserted, Moved, MasksOf, CanList, Started, HeadOf, LocalFirst,
      NoneDisplaces;
    result := Skipped;
    match op {
      case StartOp(t) =>
        if t < |s.threads| && s.threads[t].stat == Init {
          s.Startup(t);
          result := Done;
        }
      case ReadyOp(t) =>
        if t < |s.threads| {
          var r := s.ReadyThread(t);
          result := Answer(r);
        }
      case PriorityOp(t, p) =>
        if t < |s.threads| && p < s.max {
          s.ChangePriority(t, p);
          result := Done;
        }
      case SuspendOp(c) =>
        if c < |s.current| {
          var r := s.SuspendSelf(c);
          result := Answer(r);
        }
      case YieldOp(c) =>
        if c < |s.current| {
          s.GiveWay(c);
          result := Done;
        }
      case BindOp(t, cpu) =>
        if t < |s.threads| && s.threads[t].stat != Ready {
          s.Bind(t, cpu);
          result := Done;
        }
      case ScheduleOp(c) =>
        if c < |s.current| {
          var switched := s.Schedule(c);
          result := Scheduled(switched);
        }
    }
  }

  /** Any interleaving of operations of all cores, in which no ready thread is bound, is a run of
      `Steps` that keeps every ready thread in its one queue, every running thread on its one core
      and the bitmaps right. */
  method Run(s: Scheduler, ops: seq<Op>) returns (results: seq<Result>, ghost trace: seq<Record>)
    requires s.Valid()
    modifies s
    ensures s.Valid() && Recorded(trace, ops, old(s.View()), s.View()) && |results| == |ops|
    ensures forall i :: 0 <= i < |trace| ==> trace[i].result == results[i] && Steps(s.max, trace[i])
  {
    hide Ok, Recorded, Steps;
    results, trace := [], [];
    ghost var start := s.View();
    NothingRecorded<State, Op, Result>(ops, start);
    for i := 0 to |ops|
      invariant s.Valid() && Recorded(trace, ops[..i], start, s.View()) && |results| == |trace| == i
      invariant forall k :: 0 <= k < i ==> trace[k].result == results[k] && Steps(s.max, trace[k])
    {
      ghost var v := s.View();
      var result := Step(s, ops[i]);
      ghost var e := Entry(ops[i], v, result, s.View());
      OneMoreEntry(trace, ops, start, v, i, e);
      results, trace := results + [result], trace + [e];
    }
    assert ops[..|ops|] == ops;
  }

  /** What `Ok` means for one thread: a ready thread is in one list of one queue only, a running
      thread is on one core only, and a thread that is not ready is in no list. */
  lemma OnePlace(max: nat, s: State, t: nat, i: nat, p: nat)
    requires Ok(max, s) && t < |s.threads| && i < |s.queues| && p < |s.queues[i].lists|
    ensures t in s.queues[i].lists[p] <==>
      s.threads[t].stat == Ready && s.threads[t].bind == i && s.threads[t].prio == p
    ensures Distinct(s.queues[i].lists[p])
    ensures s.threads[t].stat == Running ==> s.threads[t].oncpu < |s.current| && s.current[s.threads[t].oncpu] == t
    ensures forall c :: 0 <= c < |s.current| && s.current[c] == t ==>
      s.threads[t].oncpu == c && s.threads[t].stat != Ready
  {
    assert QueueOk(max, s.queues[i], s.threads, i);
    NotListed(max, s, i, p, t);
  }
}
